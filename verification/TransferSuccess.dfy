/** The safety theorem is not empty: when nothing is lost and nothing fails, the transfer of every
    acceptable file comes to DONE, and the sender's assumption holds all along. */
module TransferSuccess {
  import opened Common
  import opened TransferSender
  import opened TransferDevice
  import opened TransferSenderRuns
  import opened TransferSession
  import opened TransferSystem
  import opened TransferAssumption
  import Base64

  /** Everything is stored and acknowledged, and the device hashes what it stored. */
  ghost predicate Hashing(c: Setup, s: System) {
    && s.snd.state == WaitCheckAck && SliceValid(s.snd, c.goal.data) && s.toDev == [] && s.toSnd == []
    && DeviceChecks(c, s.dev)
  }

  ghost predicate DeviceChecks(c: Setup, d: Device) {
    && d.phase == Check && Checking(d, c.goal) && d.errs == {} && !d.checkDone && d.timer == GOOD.now
    && !d.restartRequired
  }

  /** On a platform where nothing fails the last piece starts the check. */
  lemma LastStoreStartsCheck(c: Setup, d: Device, k: nat)
    requires !Firmware(c.goal) && DeviceWaits(c, d, k) && PIECE_SIZE * (k + 1) >= |c.goal.data| && !d.checkDone
    ensures DeviceChecks(c, MessageArrived(d, PieceMessage(c.goal.data, k), GOOD, c.md5Is).0)
  {
    hide StoreBase64, Firmware, Slice, Session;
    GoodStoreAccepts(c, d, k);
    HoldingOf(d, c.goal, c.md5Is);
    ExpectedPieceIsStored(d, c.goal, GOOD, c.md5Is);
    var (b, ok) := StoreBase64(d, k, Some(PieceMessage(c.goal.data, k).text), GOOD, c.md5Is);
    CheckOfSession(b, c.goal, c.md5Is);
  }

  lemma CheckOfSession(d: Device, g: Goal, md5Is: Md5Is)
    requires Session(d, g, md5Is) && d.phase == Check
    ensures Checking(d, g) && Checking(d.(errs := {}), g)
  {
    hide Firmware, Md5Local;
  }

  /** The last piece in flight, its acceptance, and the sender waiting for the result. */
  lemma LastExchange(c: Setup, s: System, k: nat) returns (u: System, actions: seq<Action>)
    requires !Firmware(c.goal) && InFlight(c, s, k) && PIECE_SIZE * (k + 1) >= |c.goal.data| && !s.dev.checkDone
    ensures Possible(c, s, actions) && Smooth(actions) && AssumptionHolds(c, s, actions) && Final(c, s, actions) == u
            && Hashing(c, u) && SameResult(s.dev, u.dev)
  {
    hide Firmware, Slice, Next, Enabled, NoStaleTraffic, Checking;
    OffsetAtEnd(c.goal.data, k + 1);
    var now := s.snd.timer;
    var s1 := Stores(c, s, k);
    StoresStartsCheck(c, s, k);
    assert s1.toDev == [] && s1.toSnd[0].resp == Response(true, {});
    u := AwaitsResult(c, s1, now);
    actions := [DeviceReceives(GOOD), SenderPass(1, now)];
    OnlyPassesRepeat(c, s, actions[0]);
    PathIsRun(c, actions, [s, s1, u]);
  }

  lemma StoresStartsCheck(c: Setup, s: System, k: nat)
    requires !Firmware(c.goal) && InFlight(c, s, k) && PIECE_SIZE * (k + 1) >= |c.goal.data| && !s.dev.checkDone
    requires Enabled(c, s, DeviceReceives(GOOD))
    ensures DeviceChecks(c, Next(c, s, DeviceReceives(GOOD)).dev)
  {
    hide Firmware, MessageArrived, DeviceWaits, DeviceChecks;
    LastStoreStartsCheck(c, s.dev, k);
  }

  /** The acceptance of the last piece turns the sender to the result of the check. */
  lemma AwaitsResult(c: Setup, s: System, now: int) returns (u: System)
    requires s.snd.state == WaitPieceAck && s.snd.remaining == 0 && SliceValid(s.snd, c.goal.data)
    requires s.toDev == [] && |s.toSnd| == 1 && s.toSnd[0].resp == Response(true, {})
    ensures Enabled(c, s, SenderPass(1, now)) && u == Next(c, s, SenderPass(1, now))
            && NoStaleTraffic(c, s, SenderPass(1, now))
    ensures u.snd.state == WaitCheckAck && SliceValid(u.snd, c.goal.data) && u.toDev == [] && u.toSnd == []
            && u.dev == s.dev
  {
    hide NoStaleTraffic, Next, Enabled;
    SenderTakesOne(c, s, now);
    u := Next(c, s, SenderPass(1, now));
  }

  /** What is left of the check: the passes over the file, and the one that settles it. */
  ghost function ToHash(s: System): int {
    if s.dev.handle.Reading? then |s.dev.temp| - s.dev.handle.pos else 0
  }

  ghost predicate Settled(c: Setup, s: System) {
    && s.snd.state == WaitCheckAck && SliceValid(s.snd, c.goal.data) && s.toDev == [] && s.toSnd == []
    && s.dev.checkDone && s.dev.checkValid && s.dev.errs == {}
    && s.dev.restartRequired == Firmware(c.goal) && s.dev.name == c.goal.name
  }

  lemma TaskHashes(c: Setup, s: System)
    requires Hashing(c, s) && c.md5Is(c.goal.data, Md5Local(c.goal.md5))
    ensures var u := Next(c, s, DeviceTask(GOOD));
            if ToHash(s) > 0 then Hashing(c, u) && ToHash(u) < ToHash(s) else Settled(c, u)
  {
    hide Firmware, Md5Local;
    var (d, g) := (s.dev, c.goal);
    if ToHash(s) > 0 {
      var end := Min(d.handle.pos + READ_BUFFER_SIZE, |d.temp|);
      assert g.data[..d.handle.pos] + g.data[d.handle.pos..end] == g.data[..end];
    } else {
      assert g.data[..|g.data|] == g.data;
    }
    assert s.toSnd + [] == s.toSnd;
  }

  lemma {:induction false} CheckSettles(c: Setup, s: System) returns (u: System, actions: seq<Action>)
    requires Hashing(c, s) && c.md5Is(c.goal.data, Md5Local(c.goal.md5))
    ensures Possible(c, s, actions) && Smooth(actions) && AssumptionHolds(c, s, actions) && Final(c, s, actions) == u
            && Settled(c, u)
    decreases ToHash(s)
  {
    hide Hashing, Settled, Next, NoStaleTraffic;
    var a := DeviceTask(GOOD);
    TaskHashes(c, s);
    OnlyPassesRepeat(c, s, a);
    var t := Next(c, s, a);
    PathIsRun(c, [a], [s, t]);
    if ToHash(s) > 0 {
      var more;
      u, more := CheckSettles(c, t);
      RunsCompose(c, s, [a], more);
      actions := [a] + more;
    } else {
      u, actions := t, [a];
    }
  }

  /** A device that has installed a firmware is restarted, one that has stored a file goes on running. */
  ghost predicate RestartsIffFirmware(c: Setup, d: Device) {
    if Firmware(c.goal) then d == PowerUp(d) else d.name == c.goal.name
  }

  lemma TaskReportsResult(c: Setup, s: System)
    requires Settled(c, s)
    ensures var u := Next(c, s, DeviceTask(GOOD));
            && u.snd == s.snd && u.toSnd == [Tagged(Response(true, {}), AboutResult)]
            && RestartsIffFirmware(c, u.dev)
  {
    hide Firmware;
  }

  lemma ResultIsReported(c: Setup, s: System) returns (u: System, actions: seq<Action>)
    requires Settled(c, s)
    ensures Possible(c, s, actions) && Smooth(actions) && AssumptionHolds(c, s, actions) && Final(c, s, actions) == u
            && u.snd.state == Done && RestartsIffFirmware(c, u.dev)
  {
    hide NoStaleTraffic, RunTask, RestartsIffFirmware;
    var now := s.snd.timer;
    var s1 := Next(c, s, DeviceTask(GOOD));
    TaskReportsResult(c, s);
    SenderTakesOne(c, s1, now);
    u := Finishes(c, s1, now);
    actions := [DeviceTask(GOOD), SenderPass(1, now)];
    OnlyPassesRepeat(c, s, actions[0]);
    PathIsRun(c, actions, [s, s1, u]);
  }

  // ---------------------------------------------------------------- firmware

  /** On a platform where nothing fails the last piece of a firmware verifies and installs it. */
  lemma LastPieceInstalls(c: Setup, d: Device, k: nat)
    requires Firmware(c.goal) && DeviceWaits(c, d, k) && PIECE_SIZE * (k + 1) >= |c.goal.data|
    requires c.md5Is(c.goal.data, Md5Local(c.goal.md5))
    ensures k < TWO_32
    ensures var (b, ok) := StoreBase64(d, k, Some(Base64.Encode(Slice(c.goal.data, k))), GOOD, c.md5Is);
            && ok && b.errs == {} && Passed(b) && b.phase == Cleanup && b.restartRequired
            && b.name == d.name == c.goal.name
  {
    hide DecodePiece, Firmware, Slice, Session, Md5Local;
    var bytes := Slice(c.goal.data, k);
    HoldingOf(d, c.goal, c.md5Is);
    SliceOfHolding(d, c.goal);
    EncodedPieceDecodes(bytes);
    assert Stored(true, bytes, GOOD.written) == bytes;
    WriteAppends(d, c.goal, GOOD);
    assert PIECE_SIZE * k < |c.goal.data| < TWO_32;
    assert c.goal.data[..Offset(c.goal.data, k + 1)] == c.goal.data;
  }

  lemma InstallIsAnswered(c: Setup, s: System, k: nat)
    requires Firmware(c.goal) && InFlight(c, s, k) && PIECE_SIZE * (k + 1) >= |c.goal.data|
    requires c.md5Is(c.goal.data, Md5Local(c.goal.md5)) && Enabled(c, s, DeviceReceives(GOOD))
    ensures var u := Next(c, s, DeviceReceives(GOOD));
            && u == s.(dev := u.dev, verified := true, toDev := [],
               toSnd := [Tagged(Response(true, {}), AboutPiece(k))])
            && Passed(u.dev) && u.dev.phase == Cleanup && u.dev.errs == {} && u.dev.restartRequired
            && u.dev.name == c.goal.name
  {
    hide Firmware, StoreBase64, DeviceWaits, Md5Local, Slice, Offset;
    LastPieceInstalls(c, s.dev, k);
    assert s.toDev[0] == PieceMessage(c.goal.data, k) && s.toDev[1..] == [];
  }

  lemma FirmwareExchange(c: Setup, s: System, k: nat) returns (u: System, actions: seq<Action>)
    requires Firmware(c.goal) && InFlight(c, s, k) && PIECE_SIZE * (k + 1) >= |c.goal.data|
    requires c.md5Is(c.goal.data, Md5Local(c.goal.md5))
    ensures Possible(c, s, actions) && Smooth(actions) && AssumptionHolds(c, s, actions) && Final(c, s, actions) == u
            && Settled(c, u)
  {
    hide Firmware, Slice, Next, NoStaleTraffic, DeviceWaits, Md5Local;
    OffsetAtEnd(c.goal.data, k + 1);
    var now := s.snd.timer;
    InstallIsAnswered(c, s, k);
    var s1 := Next(c, s, DeviceReceives(GOOD));
    u := AwaitsResult(c, s1, now);
    actions := [DeviceReceives(GOOD), SenderPass(1, now)];
    OnlyPassesRepeat(c, s, actions[0]);
    PathIsRun(c, actions, [s, s1, u]);
  }

  /** From the last piece in flight to the result, for a file and for a firmware. */
  lemma Settles(c: Setup, s: System, k: nat) returns (u: System, actions: seq<Action>)
    requires InFlight(c, s, k) && PIECE_SIZE * (k + 1) >= |c.goal.data| && !s.dev.checkDone
    requires c.md5Is(c.goal.data, Md5Local(c.goal.md5))
    ensures Possible(c, s, actions) && Smooth(actions) && AssumptionHolds(c, s, actions) && Final(c, s, actions) == u
            && Settled(c, u)
  {
    hide Next, Enabled, NoStaleTraffic, InFlight, Hashing, Settled, Possible, Final, AssumptionHolds, Firmware,
        Md5Local;
    if Firmware(c.goal) {
      u, actions := FirmwareExchange(c, s, k);
    } else {
      var h, last := LastExchange(c, s, k);
      var check;
      u, check := CheckSettles(c, h);
      RunsCompose(c, s, last, check);
      actions := last + check;
    }
  }

  /** From every initial state, for every file or firmware: some run without a loss, in which the
      assumption holds, ends in DONE; so it is in its place, and the device runs a new firmware and goes on
      running after a file. */
  lemma TransferSucceeds(c: Setup, s: System) returns (actions: seq<Action>)
    requires Acceptable(c) && Initial(c, s) && Remembers(s.dev) && !s.dev.checkDone
             && c.md5Is(c.goal.data, Md5Local(c.goal.md5))
    ensures Possible(c, s, actions) && Smooth(actions) && AssumptionHolds(c, s, actions)
    ensures Final(c, s, actions).snd.state == Done && Delivered(Final(c, s, actions).dev, c.goal, c.md5Is)
    ensures RestartsIffFirmware(c, Final(c, s, actions).dev)
  {
    hide Next, Enabled, NoStaleTraffic, InFlight, Settled, Possible, Final, AssumptionHolds, Initial, JustStarted,
        Firmware, Delivered, Md5Local, RestartsIffFirmware;
    var k := (|c.goal.data| - 1) / PIECE_SIZE;
    InitialIsStarted(c, s);
    var t, first := Reaches(c, s, k);
    var e, middle := Settles(c, t, k);
    var u, report := ResultIsReported(c, e);
    RunsCompose(c, t, middle, report);
    RunsCompose(c, s, first, middle + report);
    actions := first + (middle + report);
    DoneOnlyAfterDelivery(c, s, actions);
  }
}
