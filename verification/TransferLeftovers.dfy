/** What an earlier transfer must not have left behind on the device. The theorem about DONE assumes that
    no positive result waits to be reported and that no check is under way: `begin()` clears neither
    `isFileCheckDone` nor `isFileValid`, so such a result is reported as the new transfer's. */
module TransferLeftovers {
  import opened Common
  import opened TransferSender
  import opened TransferDevice
  import opened TransferSenderRuns
  import opened TransferSession
  import opened TransferSystem
  import opened TransferAssumption
  import opened TransferSuccess

  // ---------------------------------------------------------------- what is never left

  /** A "wrong piece number" never stays in the error mask: it is set only while a piece is handled, and
      its answer carries the mask away. */
  lemma MaskStaysClear(d: Device, m: Request, env: Env, md5Is: Md5Is)
    ensures WrongFilePieceNumber !in PowerUp(d).errs
    ensures WrongFilePieceNumber !in d.errs ==> WrongFilePieceNumber !in MessageArrived(d, m, env, md5Is).0.errs
    ensures WrongFilePieceNumber !in d.errs ==> WrongFilePieceNumber !in RunTask(d, env, md5Is).0.errs
  {
    hide Begin, StoreBase64, HasElapsed, IsOwnFirmwareFileName;
  }

  // ---------------------------------------------------------------- a result that waits

  lemma LastPieceStartsCheck(c: Setup, s: System, k: nat)
    requires !Firmware(c.goal) && InFlight(c, s, k) && PIECE_SIZE * (k + 1) >= |c.goal.data|
    ensures Enabled(c, s, DeviceReceives(GOOD))
    ensures var d := Next(c, s, DeviceReceives(GOOD)).dev;
            d.phase == Check && d.handle == Reading(0) && d.temp == c.goal.data && d.errs == {} && d.timer == GOOD.now
  {
    hide Firmware, StoreBase64, Slice, Session, Offset;
    GoodStoreAccepts(c, s.dev, k);
    HoldingOf(s.dev, c.goal, c.md5Is);
    ExpectedPieceIsStored(s.dev, c.goal, GOOD, c.md5Is);
    CheckOfSession(StoreBase64(s.dev, k, Some(s.toDev[0].text), GOOD, c.md5Is).0, c.goal, c.md5Is);
  }

  /** A pass of the device's task with a positive result waiting and the new file's hash just begun. */
  lemma OldResultIsReported(d: Device, md5Is: Md5Is)
    requires Passed(d) && d.phase == Check && d.handle == Reading(0) && d.temp != [] && d.errs == {}
             && d.timer == GOOD.now
    ensures var (e, m) := RunTask(d, GOOD, md5Is);
            m == Some(Response(true, {})) && e.files == d.files && e.installed == d.installed
  {}

  /** For every ordinary file, with an earlier transfer's positive result still waiting: a run without
      loss or restart, in which the sender's assumption holds, reaches DONE with nothing put in place. */
  lemma StaleResultIsBelieved(c: Setup, s: System) returns (actions: seq<Action>)
    requires Acceptable(c) && !Firmware(c.goal) && JustStarted(c, s) && Remembers(s.dev) && Passed(s.dev)
    ensures Possible(c, s, actions) && Smooth(actions) && AssumptionHolds(c, s, actions)
    ensures var u := Final(c, s, actions);
            u.snd.state == Done && u.dev.files == s.dev.files && u.dev.installed == s.dev.installed
  {
    hide Next, Enabled, NoStaleTraffic, InFlight, Possible, Final, AssumptionHolds, JustStarted, Firmware;
    var k := (|c.goal.data| - 1) / PIECE_SIZE;
    var t, first := Reaches(c, s, k);
    var u, last := OldResultEndsIt(c, t, k);
    RunsCompose(c, s, first, last);
    actions := first + last;
  }

  lemma OldResultEndsIt(c: Setup, s: System, k: nat) returns (u: System, actions: seq<Action>)
    requires !Firmware(c.goal) && InFlight(c, s, k) && PIECE_SIZE * (k + 1) >= |c.goal.data| && Passed(s.dev)
    ensures Possible(c, s, actions) && Smooth(actions) && AssumptionHolds(c, s, actions) && Final(c, s, actions) == u
    ensures u.snd.state == Done && u.dev.files == s.dev.files && u.dev.installed == s.dev.installed
  {
    hide Firmware, Slice, Next, NoStaleTraffic, DeviceWaits;
    OffsetAtEnd(c.goal.data, k + 1);
    var now := s.snd.timer;
    var s1 := Stores(c, s, k);
    LastPieceStartsCheck(c, s, k);
    var s2 := AwaitsResult(c, s1, now);
    var s3 := Next(c, s2, DeviceTask(GOOD));
    OldResultIsReported(s2.dev, c.md5Is);
    TaskReports(c, s2);
    u := Finishes(c, s3, now);
    FinishKeepsDevice(c, s3, now);
    actions := [DeviceReceives(GOOD), SenderPass(1, now), DeviceTask(GOOD), SenderPass(1, now)];
    OnlyPassesRepeat(c, s, actions[0]);
    OnlyPassesRepeat(c, s2, actions[2]);
    PathIsRun(c, actions, [s, s1, s2, s3, u]);
  }

  lemma TaskReports(c: Setup, s: System)
    requires s.toSnd == [] && RunTask(s.dev, GOOD, c.md5Is).1 == Some(Response(true, {}))
    ensures var u := Next(c, s, DeviceTask(GOOD));
            && u.snd == s.snd && u.dev == RunTask(s.dev, GOOD, c.md5Is).0
            && u.toSnd == [Tagged(Response(true, {}), AboutResult)]
  {
    hide RunTask;
  }

  lemma FinishKeepsDevice(c: Setup, s: System, now: int)
    requires s.snd.state == WaitCheckAck && SliceValid(s.snd, c.goal.data) && |s.toSnd| == 1
             && s.toSnd[0].resp == Response(true, {})
    ensures Enabled(c, s, SenderPass(1, now)) && Next(c, s, SenderPass(1, now)).dev == s.dev
            && NoStaleTraffic(c, s, SenderPass(1, now))
  {
    SenderTakesOne(c, s, now);
  }

  /** For an ordinary file that is not in place already, and a device that is not in the middle of a check:
      DONE can be relied on over every run in which the sender's assumption holds exactly if no positive
      result of an earlier transfer waits to be reported. */
  lemma ReliableIffNoResultWaits(c: Setup, s: System)
    requires Acceptable(c) && !Firmware(c.goal) && JustStarted(c, s) && !s.verified && Remembers(s.dev)
    requires s.dev.phase != Check && WrongFilePieceNumber !in s.dev.errs && !Delivered(s.dev, c.goal, c.md5Is)
    ensures (forall actions :: Possible(c, s, actions) && AssumptionHolds(c, s, actions)
                 ==> DoneIsTrue(c, Final(c, s, actions)))
       <==> !Passed(s.dev)
  {
    if Passed(s.dev) {
      hide Possible, Final, AssumptionHolds, JustStarted, Firmware, Delivered;
      var actions := StaleResultIsBelieved(c, s);
      SameFilesSameDelivery(s.dev, Final(c, s, actions).dev, c);
      assert !DoneIsTrue(c, Final(c, s, actions));
    } else {
      hide Possible, Final, AssumptionHolds, Firmware, Delivered, DoneIsTrue;
      forall actions | Possible(c, s, actions) && AssumptionHolds(c, s, actions)
        ensures DoneIsTrue(c, Final(c, s, actions))
      {
        DoneOnlyAfterDelivery(c, s, actions);
      }
    }
  }

  lemma SameFilesSameDelivery(d: Device, e: Device, c: Setup)
    requires d.files == e.files && d.installed == e.installed
    ensures Delivered(d, c.goal, c.md5Is) <==> Delivered(e, c.goal, c.md5Is)
  {}

  // ---------------------------------------------------------------- a check that is under way

  /** An earlier file is all there and its hash is being taken. */
  ghost predicate OldCheck(d: Device, md5Is: Md5Is) {
    && d.phase == Check && d.handle.Reading? && d.handle.pos <= |d.temp| && d.hashed == d.temp[..d.handle.pos]
    && md5Is(d.temp, d.md5) && !d.checkDone
  }

  lemma OldCheckPass(d: Device, env: Env, md5Is: Md5Is)
    requires OldCheck(d, md5Is) && env == GOOD.(now := d.timer)
    ensures var (e, m) := RunTask(d, env, md5Is);
            && m.None? && e.timer == d.timer && e.installed == d.installed && e.temp == d.temp && e.name == d.name
            && if d.handle.pos < |d.temp|
               then OldCheck(e, md5Is) && e.files == d.files && e.handle.pos > d.handle.pos
               else Passed(e) && e.files == d.files[d.name := d.temp]
  {
    if d.handle.pos < |d.temp| {
      var end := Min(d.handle.pos + READ_BUFFER_SIZE, |d.temp|);
      assert d.temp[..d.handle.pos] + d.temp[d.handle.pos..end] == d.temp[..end];
    } else {
      assert d.temp[..|d.temp|] == d.temp;
    }
  }

  /** The old file is put in place before the start message is handled. */
  lemma {:induction false} OldCheckPasses(c: Setup, s: System) returns (u: System, actions: seq<Action>)
    requires OldCheck(s.dev, c.md5Is) && Remembers(s.dev)
    ensures Possible(c, s, actions) && AssumptionHolds(c, s, actions) && Final(c, s, actions) == u
    ensures u == s.(dev := u.dev, verified := u.verified) && Passed(u.dev) && Remembers(u.dev)
    ensures u.dev.files == s.dev.files[s.dev.name := s.dev.temp] && u.dev.installed == s.dev.installed
    decreases |s.dev.temp| - s.dev.handle.pos
  {
    hide Next, NoStaleTraffic, RunTask, Remembers;
    var env := GOOD.(now := s.dev.timer);
    var a := DeviceTask(env);
    OldCheckPass(s.dev, env, c.md5Is);
    TaskRemembers(s.dev, env, c.md5Is);
    QuietTask(c, s, env);
    OnlyPassesRepeat(c, s, a);
    var t := Next(c, s, a);
    PathIsRun(c, [a], [s, t]);
    if s.dev.handle.pos < |s.dev.temp| {
      var more;
      u, more := OldCheckPasses(c, t);
      RunsCompose(c, s, [a], more);
      actions := [a] + more;
    } else {
      u, actions := t, [a];
    }
  }

  lemma QuietTask(c: Setup, s: System, env: Env)
    requires RunTask(s.dev, env, c.md5Is).1.None?
    ensures var e := RunTask(s.dev, env, c.md5Is).0;
            Next(c, s, DeviceTask(env)) == s.(dev := e, verified := s.verified || Passed(e))
  {
    hide RunTask;
    assert s.toSnd + [] == s.toSnd;
  }

  /** What happens does not depend on what the device has stored, or under which name and hash. */
  lemma {:induction false} SameRuns(c: Setup, goal: Goal, s: System, actions: seq<Action>)
    requires goal.data == c.goal.data && Possible(c.(goal := goal), s, actions)
    ensures Possible(c, s, actions) && Final(c, s, actions) == Final(c.(goal := goal), s, actions)
    ensures AssumptionHolds(c.(goal := goal), s, actions) ==> AssumptionHolds(c, s, actions)
    decreases |actions|
  {
    if actions != [] {
      var e := c.(goal := goal);
      assert Enabled(c, s, actions[0]) && Next(c, s, actions[0]) == Next(e, s, actions[0]);
      assert NoStaleTraffic(e, s, actions[0]) ==> NoStaleTraffic(c, s, actions[0]);
      hide Enabled, Next, NoStaleTraffic;
      SameRuns(c, goal, Next(c, s, actions[0]), actions[1..]);
    }
  }

  /** For every ordinary file, with an earlier one in its check: unless putting that one in place is all the
      new transfer would do, some run in which the assumption holds reaches a DONE that is not true. */
  lemma OldCheckIsBelieved(c: Setup, s: System) returns (actions: seq<Action>)
    requires Acceptable(c) && !Firmware(c.goal) && JustStarted(c, s) && Remembers(s.dev) && OldCheck(s.dev, c.md5Is)
    requires s.dev.files[s.dev.name := s.dev.temp] != c.goal.files[c.goal.name := c.goal.data]
    ensures Possible(c, s, actions) && AssumptionHolds(c, s, actions) && !DoneIsTrue(c, Final(c, s, actions))
  {
    hide Next, Enabled, NoStaleTraffic, Possible, Final, AssumptionHolds, Remembers, OldCheck;
    var t, first := OldCheckPasses(c, s);
    var e := c.(goal := c.goal.(files := t.dev.files));
    assert Acceptable(e) && JustStarted(e, t);
    hide JustStarted, Acceptable, Firmware;
    var rest := StaleResultIsBelieved(e, t);
    SameRuns(c, e.goal, t, rest);
    RunsCompose(c, s, first, rest);
    actions := first + rest;
  }

  // ---------------------------------------------------------------- a result that waits, and a session

  /** A pass with a positive result waiting, in the middle of an unfinished session. */
  lemma ResultLeavesSession(c: Setup, d: Device, md5Is: Md5Is)
    requires DeviceWaits(c, d, 0) && Passed(d) && !d.restartRequired && md5Is == c.md5Is
    ensures RunTask(d, GOOD.(now := d.timer), md5Is) == (d.(checkDone := false), Some(Response(true, {})))
    ensures DeviceWaits(c, d.(checkDone := false), 0)
  {
    hide Firmware, Md5Local, Slice, Offset;
  }

  /** The waiting result is read as the answer to a start message that is lost, and the first piece goes
      to the old session. */
  lemma OldSessionTakesOver(c: Setup, goal: Goal, s: System) returns (u: System, actions: seq<Action>)
    requires JustStarted(c, s) && !s.verified && goal.data == c.goal.data && c.goal.data != []
    requires DeviceWaits(c.(goal := goal), s.dev, 0) && Passed(s.dev) && !s.dev.restartRequired
    ensures Possible(c.(goal := goal), s, actions) && AssumptionHolds(c.(goal := goal), s, actions)
    ensures Final(c.(goal := goal), s, actions) == u && InFlight(c.(goal := goal), u, 0)
            && u.dev == s.dev.(checkDone := false) && u.snd.retries == 0 && u.snd.resent.None?
  {
    hide DeviceWaits, NoStaleTraffic, RunTask, Slice, Act, ProcessResponse;
    var e := c.(goal := goal);
    var now := s.snd.timer;
    ResultLeavesSession(e, s.dev, c.md5Is);
    var a := DeviceTask(GOOD.(now := s.dev.timer));
    var s1 := s.(dev := s.dev.(checkDone := false), toSnd := [Tagged(Response(true, {}), AboutResult)]);
    assert s1 == Next(e, s, a);
    var s2 := s1.(toDev := []);
    assert s2 == Next(e, s1, RequestLost(0));
    SenderTakesOne(e, s2, now);
    var r := ProcessResponse(s2.snd, Response(true, {}), now);
    assert r == s2.snd.(state := SendingFw) by { StartIsAcknowledged(s2.snd, now); }
    SendsNext(goal.data, r, 0, now);
    u := Next(e, s2, SenderPass(1, now));
    actions := [a, RequestLost(0), SenderPass(1, now)];
    OnlyPassesRepeat(e, s, actions[0]);
    OnlyPassesRepeat(e, s1, actions[1]);
    PathIsRun(e, actions, [s, s1, s2, u]);
  }

  lemma StartIsAcknowledged(s: Sender, now: int)
    requires s.state == WaitStartAck
    ensures ProcessResponse(s, Response(true, {}), now) == s.(state := SendingFw)
  {}

  /** For every transfer, a firmware too: with a positive result waiting, and an unfinished transfer of the
      same bytes under another name open, some run in which the assumption holds reaches DONE with those
      bytes put in place under the other name. */
  lemma OldSessionIsBelieved(c: Setup, goal: Goal, s: System) returns (actions: seq<Action>)
    requires JustStarted(c, s) && !s.verified && goal.data == c.goal.data && c.goal.data != []
    requires !Firmware(goal) && Untouched(s.dev, goal) && c.md5Is(goal.data, Md5Local(goal.md5))
    requires DeviceWaits(c.(goal := goal), s.dev, 0) && Passed(s.dev) && !s.dev.restartRequired
    ensures Possible(c, s, actions) && AssumptionHolds(c, s, actions)
    ensures var u := Final(c, s, actions);
            && u.snd.state == Done && u.dev.installed == s.dev.installed
            && u.dev.files == s.dev.files[goal.name := goal.data]
            && (Firmware(c.goal) && s.dev.installed != Some(c.goal.data) ==> !DoneIsTrue(c, u))
            && (!Firmware(c.goal) && goal.name != c.goal.name && c.goal.name !in s.dev.files ==> !DoneIsTrue(c, u))
  {
    hide Next, Enabled, NoStaleTraffic, InFlight, Settled, Possible, Final, AssumptionHolds, JustStarted, Md5Local,
        DeviceWaits;
    var e := c.(goal := goal);
    var k := (|goal.data| - 1) / PIECE_SIZE;
    var t0, x := OldSessionTakesOver(c, goal, s);
    var t1, y := ReachesFrom(e, t0, k);
    var t2, z := Settles(e, t1, k);
    var t3, w := ResultIsReported(e, t2);
    RunsCompose(e, t1, z, w);
    RunsCompose(e, t0, y, z + w);
    RunsCompose(e, s, x, y + (z + w));
    FirstPieceInv(e, t0);
    RunKeepsInv(e, t0, y + (z + w));
    DoneIsDelivered(e, t3);
    actions := x + (y + (z + w));
    SameRuns(c, goal, s, actions);
    if !Firmware(c.goal) && goal.name != c.goal.name && c.goal.name !in s.dev.files {
      assert c.goal.name !in t3.dev.files && c.goal.name in c.goal.files[c.goal.name := c.goal.data];
    }
  }

  lemma FirstPieceInv(c: Setup, s: System)
    requires InFlight(c, s, 0) && !s.dev.checkDone && s.snd.retries == 0 && s.snd.resent.None?
    ensures Inv(c, s)
  {
    hide Session, Delivered, Firmware;
    PieceMessageIs(c.goal.data, 0);
    assert |Slice(c.goal.data, 0)| > 0;
  }

  lemma DoneIsDelivered(c: Setup, s: System)
    requires Inv(c, s) && s.snd.state == Done
    ensures Delivered(s.dev, c.goal, c.md5Is)
  {}
}
