/** What the device's glue makes of a transfer's start and of its end: which starts are accepted, which
    results restart the device, how a failed check is reported, and how long a silent transfer lives. */
module TransferOutcome {
  import opened Common
  import opened TransferSender
  import opened TransferDevice
  import opened TransferSenderRuns
  import opened TransferSession
  import opened TransferSystem
  import opened TransferAssumption
  import opened TransferSuccess

  // ---------------------------------------------------------------- starts

  /** What the message itself must be like. */
  predicate Welcome(size: nat, md5: string, name: string, binId: Option<string>) {
    && 0 < size < TWO_32 && md5 != "" && name in VALID_NAMES
    && (if name == "espFirmware" then binId == Some(PIO_ENV) else binId in {None, Some(PIO_ENV)})
  }

  /** And what the platform must have to offer. */
  predicate Room(size: nat, name: string, env: Env) {
    !env.inUse && if name == "espFirmware" then env.updateBegins && env.md5Set else env.opens && env.freeSpace > size
  }

  /** A start is answered exactly if its size is a 32-bit number, and accepted exactly if the message is in
      order and the platform has room. An accepted one has the device expect the first piece of what it
      announces, and asks for a restart exactly if it announces a firmware. */
  lemma StartIsAcceptedIff(d: Device, size: nat, md5: string, name: string, binId: Option<string>, env: Env,
                           md5Is: Md5Is)
    requires Remembers(d)
    ensures var (e, m) := MessageArrived(d, Start(size, md5, name, binId), env, md5Is);
            && (m.Some? <==> size < TWO_32)
            && (m.Some? ==> m.value.Response?)
            && (m.Some? && m.value.ack <==> Welcome(size, md5, name, binId) && Room(size, name, env))
            && (m.Some? && m.value.ack ==>
                 && e.phase == Storing && e.next == 0 && e.remaining == e.fileSize == size && e.name == name
                 && e.md5 == (if |md5| <= 32 then md5 else md5[..32])
                 && (e.restartRequired <==> name == "espFirmware"))
  {
    hide Begin;
    BeginSucceedsIff(d, size, md5, name, env);
  }

  lemma BeginSucceedsIff(d: Device, size: nat, md5: string, name: string, env: Env)
    requires Remembers(d)
    ensures var (b, ok) := Begin(d, size, Some(md5), Some(name), env);
            && (ok <==> 0 < size && md5 != "" && name in VALID_NAMES && Room(size, name, env))
            && (ok ==> && b.phase == Storing && b.next == 0 && b.remaining == b.fileSize == size && b.name == name
                       && b.md5 == (if |md5| <= 32 then md5 else md5[..32])
                       && (b.isFw <==> name == "espFirmware"))
  {
    hide Open;
    OpensIff(Reset(d, size, md5, name), env);
    EmptyNameIsInvalid();
  }

  lemma EmptyNameIsInvalid()
    ensures "" !in VALID_NAMES
  {}

  lemma OpensIff(r: Device, env: Env)
    ensures var (b, ok) := Open(r, env);
            && (ok <==> if r.isFw then env.updateBegins && r.updater.NoUpdate? && env.md5Set
                        else env.opens && env.freeSpace > r.fileSize)
            && b.next == r.next && b.md5 == r.md5 && b.remaining == r.remaining && b.name == r.name
            && b.fileSize == r.fileSize
            && (ok ==> b.phase == Storing && b.isFw == r.isFw)
  {}

  /** The start decides: on a platform where nothing fails the first piece goes out exactly if the start is
      in order, and otherwise the sender ends in ERROR. */
  lemma StartDecides(c: Setup, s: System) returns (u: System)
    requires JustStarted(c, s) && Remembers(s.dev) && |c.goal.data| < TWO_32
    ensures var actions := [DeviceReceives(GOOD), SenderPass(1, s.snd.timer)];
            Possible(c, s, actions) && Final(c, s, actions) == u
    ensures var fine := Welcome(|c.goal.data|, c.goal.md5, c.goal.name, c.binId);
            u.snd.state == (if fine then WaitPieceAck else Error) && |u.toDev| == (if fine then 1 else 0)
  {
    hide MessageArrived, VALID_NAMES;
    var now := s.snd.timer;
    StartIsAcceptedIff(s.dev, |c.goal.data|, c.goal.md5, c.goal.name, c.binId, GOOD, c.md5Is);
    var s1 := Next(c, s, DeviceReceives(GOOD));
    assert |s1.toSnd| == 1 && s1.snd == s.snd && s1.toDev == [];
    SenderTakesOne(c, s1, now);
    u := Next(c, s1, SenderPass(1, now));
    PathIsRun(c, [DeviceReceives(GOOD), SenderPass(1, now)], [s, s1, u]);
  }

  // ---------------------------------------------------------------- restarts

  /** The device still works for the start it accepted, or it was restarted since. */
  ghost predicate WorksFor(d: Device, name: string) {
    || (d.restartRequired == (name == "espFirmware") && d.name == name)
    || (d.phase == Quiet && !d.checkDone)
  }

  lemma StoreKeepsFlags(d: Device, number: nat, text: seq<Byte>, env: Env, md5Is: Md5Is)
    ensures var b := StoreBase64(d, number, Some(text), env, md5Is).0;
            && b.restartRequired == d.restartRequired && b.name == d.name
            && (d.phase == Quiet ==> b == d.(errs := b.errs))
  {
    hide DecodePiece, StoreBytes;
    if DecodePiece(text).Bytes? && |DecodePiece(text).bytes| <= d.remaining {
      BytesKeepFlags(d, DecodePiece(text).bytes, env, md5Is);
    }
  }

  lemma BytesKeepFlags(d: Device, bytes: seq<Byte>, env: Env, md5Is: Md5Is)
    requires |bytes| <= d.remaining
    ensures var b := StoreBytes(d, bytes, env, md5Is).0; b.restartRequired == d.restartRequired && b.name == d.name
  {
    hide Write, Finalize;
    WriteKeepsFlags(d, bytes, env);
    var w := Write(d, bytes, env).0;
    FinalizeKeepsFlags(w.(next := (w.next + 1) % TWO_32, remaining := w.remaining - |bytes|, timer := env.now), env,
        md5Is);
  }

  lemma WriteKeepsFlags(d: Device, bytes: seq<Byte>, env: Env)
    ensures var w := Write(d, bytes, env).0; w.restartRequired == d.restartRequired && w.name == d.name
  {
    hide Stored;
  }

  lemma FinalizeKeepsFlags(d: Device, env: Env, md5Is: Md5Is)
    ensures var f := Finalize(d, env, md5Is).0; f.restartRequired == d.restartRequired && f.name == d.name
  {}

  lemma PassKeepsFlags(d: Device, env: Env, md5Is: Md5Is)
    ensures var e := CheckPass(d, env, md5Is); e.restartRequired == d.restartRequired && e.name == d.name
  {
    var pos := if d.handle.Reading? then d.handle.pos else |d.temp|;
    if pos < |d.temp| {
    } else if !md5Is(d.hashed, d.md5) {
    } else {
    }
  }

  lemma CheckKeepsFlags(d: Device, env: Env, md5Is: Md5Is)
    ensures var e := RunValidityCheck(d, env, md5Is);
            && e.restartRequired == d.restartRequired && e.name == d.name
            && (d.phase == Quiet ==> e == d.(timer := env.now))
  {
    hide HasElapsed, CheckPass;
    PassKeepsFlags(d, env, md5Is);
  }

  lemma {:induction false} EventsWorkFor(d: Device, name: string, events: seq<Later>, md5Is: Md5Is)
    requires WorksFor(d, name)
    ensures WorksFor(AfterLater(d, events, md5Is), name)
    decreases |events|
  {
    hide StoreBase64, RunValidityCheck;
    if events != [] {
      match events[0] {
        case AnyPiece(number, text, env) => StoreKeepsFlags(d, number, text, env, md5Is);
        case AnyPass(env) => CheckKeepsFlags(ReportCheck(d).0, env, md5Is);
        case AnyRestart =>
      }
      EventsWorkFor(AfterOne(d, events[0], md5Is), name, events[1..], md5Is);
    }
  }

  /** Over every run after an accepted start, up to the next one: a pass that reports a positive result
      restarts the device if the start announced a firmware, and otherwise leaves it at work. */
  lemma PositiveResultRestartsIff(d: Device, size: nat, md5: string, name: string, binId: Option<string>, env: Env,
                                  events: seq<Later>, last: Env, md5Is: Md5Is)
    requires Remembers(d)
    requires var m := MessageArrived(d, Start(size, md5, name, binId), env, md5Is).1;
             m.Some? && m.value.Response? && m.value.ack
    ensures var e := MessageArrived(d, Start(size, md5, name, binId), env, md5Is).0;
            var f := AfterLater(e, events, md5Is);
            var (g, m) := RunTask(f, last, md5Is);
            m.Some? && m.value.Response? && m.value.ack ==>
              if name == "espFirmware" then g == PowerUp(f).(timer := last.now) else g.name == name != ""
  {
    hide MessageArrived, RunValidityCheck, AfterLater, Remembers;
    StartIsAcceptedIff(d, size, md5, name, binId, env, md5Is);
    EmptyNameIsInvalid();
    var e := MessageArrived(d, Start(size, md5, name, binId), env, md5Is).0;
    EventsWorkFor(e, name, events, md5Is);
    var f := AfterLater(e, events, md5Is);
    CheckKeepsFlags(ReportCheck(f).0, last, md5Is);
  }

  // ---------------------------------------------------------------- the life of a silent transfer

  /** While it stores, a pass changes nothing but the result it may report, up to fifteen minutes after the
      last accepted message; the first pass after that closes what is open, and says nothing about it. */
  lemma SilenceEndsTransferIff(d: Device, env: Env, md5Is: Md5Is)
    requires d.phase == Storing && d.errs == {} && !d.checkDone && 0 <= env.now - d.timer < TWO_32
    ensures var (e, m) := RunTask(d, env, md5Is);
            && m.None?
            && if env.now - d.timer <= 900_000 then e == d
               else && e.phase == Quiet && e.handle == Closed && !e.isFw && e.remaining == 0 && !e.checkDone
                    && (Remembers(d) ==> e.updater.NoUpdate?)
                    && e.files == d.files && e.installed == d.installed
  {}

  // ---------------------------------------------------------------- a check that fails

  /** The hash does not match: the result waits in the error mask. */
  ghost predicate Failed(c: Setup, s: System) {
    && s.snd.state == WaitCheckAck && SliceValid(s.snd, c.goal.data) && s.toDev == [] && s.toSnd == []
    && s.dev.phase == Cleanup && s.dev.errs == {FileMd5Error} && !s.dev.checkDone
  }

  lemma TaskRejects(c: Setup, s: System)
    requires Hashing(c, s) && !c.md5Is(c.goal.data, Md5Local(c.goal.md5))
    ensures var u := Next(c, s, DeviceTask(GOOD));
            && u.dev.files == s.dev.files && u.dev.installed == s.dev.installed
            && if ToHash(s) > 0 then Hashing(c, u) && ToHash(u) < ToHash(s) else Failed(c, u)
  {
    hide Firmware, Md5Local;
    var (d, g) := (s.dev, c.goal);
    if ToHash(s) > 0 {
      var end := Min(d.handle.pos + READ_BUFFER_SIZE, |d.temp|);
      assert g.data[..d.handle.pos] + g.data[d.handle.pos..end] == g.data[..end];
    } else {
      assert g.data[..|g.data|] == g.data;
    }
    assert s.toSnd + [] == s.toSnd;
  }

  lemma {:induction false} CheckFails(c: Setup, s: System) returns (u: System, actions: seq<Action>)
    requires Hashing(c, s) && !c.md5Is(c.goal.data, Md5Local(c.goal.md5))
    ensures Possible(c, s, actions) && Smooth(actions) && Final(c, s, actions) == u && Failed(c, u)
    ensures u.dev.files == s.dev.files && u.dev.installed == s.dev.installed
    decreases ToHash(s)
  {
    hide Hashing, Failed, Next, NoStaleTraffic;
    var a := DeviceTask(GOOD);
    TaskRejects(c, s);
    var t := Next(c, s, a);
    PathIsRun(c, [a], [s, t]);
    if ToHash(s) > 0 {
      var more;
      u, more := CheckFails(c, t);
      RunsCompose(c, s, [a], more);
      actions := [a] + more;
    } else {
      u, actions := t, [a];
    }
  }

  lemma FailureTakesTwoPasses(d: Device, md5Is: Md5Is)
    requires d.phase == Cleanup && d.errs == {FileMd5Error} && !d.checkDone
    ensures var (e, m) := RunTask(d, GOOD, md5Is);
            && m.None? && e.checkDone && !e.checkValid && e.phase == Quiet && e.errs == {FileMd5Error}
            && e.files == d.files && e.installed == d.installed
            && var (f, n) := RunTask(e, GOOD, md5Is);
               n == Some(Response(false, {FileMd5Error})) && f.files == d.files && f.installed == d.installed
  {
    hide CheckPass;
  }

  /** One pass clears up and makes the mask a negative result, the next reports it. */
  lemma FailureIsReported(c: Setup, s: System) returns (u: System, actions: seq<Action>)
    requires Failed(c, s)
    ensures Possible(c, s, actions) && Smooth(actions) && Final(c, s, actions) == u
    ensures u.snd.state == Error && u.dev.files == s.dev.files && u.dev.installed == s.dev.installed
  {
    hide NoStaleTraffic, RunTask;
    var now := s.snd.timer;
    FailureTakesTwoPasses(s.dev, c.md5Is);
    var s1 := Next(c, s, DeviceTask(GOOD));
    assert s1.snd == s.snd && s1.toSnd == [];
    var s2 := Next(c, s1, DeviceTask(GOOD));
    assert s2.toSnd == [Tagged(Response(false, {FileMd5Error}), AboutResult)] && s2.snd == s.snd;
    u := NackEnds(c, s2, now);
    actions := [DeviceTask(GOOD), DeviceTask(GOOD), SenderPass(1, now)];
    PathIsRun(c, actions, [s, s1, s2, u]);
  }

  lemma NackEnds(c: Setup, s: System, now: int) returns (u: System)
    requires s.snd.state == WaitCheckAck && SliceValid(s.snd, c.goal.data)
    requires |s.toSnd| == 1 && s.toSnd[0].resp == Response(false, {FileMd5Error})
    ensures Enabled(c, s, SenderPass(1, now)) && u == Next(c, s, SenderPass(1, now))
    ensures u.snd.state == Error && u.dev == s.dev
  {
    assert FileMd5Error in {FileMd5Error} && FileMd5Error !in {WrongFilePieceNumber};
    SenderTakesOne(c, s, now);
    u := Next(c, s, SenderPass(1, now));
  }

  /** The counterpart of the successful run: an ordinary file whose announced hash is not its own is
      transferred to the last byte, and then the device says so, the sender ends in ERROR and nothing has
      been put in place. */
  lemma WrongHashFails(c: Setup, s: System) returns (actions: seq<Action>)
    requires Acceptable(c) && !Firmware(c.goal) && Initial(c, s) && Remembers(s.dev) && !s.dev.checkDone
             && !c.md5Is(c.goal.data, Md5Local(c.goal.md5))
    ensures Possible(c, s, actions) && Smooth(actions)
    ensures var u := Final(c, s, actions);
            u.snd.state == Error && u.dev.files == c.goal.files && u.dev.installed == c.goal.installed
  {
    hide Next, Enabled, NoStaleTraffic, InFlight, Failed, Possible, Final, AssumptionHolds, JustStarted,
        Firmware, Md5Local, Hashing;
    var k := (|c.goal.data| - 1) / PIECE_SIZE;
    InitialIsStarted(c, s);
    var t, first := Reaches(c, s, k);
    var h, last := LastExchange(c, t, k);
    var f, check := CheckFails(c, h);
    var u, report := FailureIsReported(c, f);
    RunsCompose(c, h, check, report);
    RunsCompose(c, t, last, check + report);
    RunsCompose(c, s, first, last + (check + report));
    actions := first + (last + (check + report));
  }
}
