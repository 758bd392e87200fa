/** Exactly when the sender's assumption is needed. A file of one piece (100 bytes) and a firmware of two
    are safe on every run; for every larger one there is a run without loss or restart in which refusals
    of one piece are credited to the following ones and DONE is reached while the final check is open. */
module TransferAssumption {
  import opened Common
  import opened TransferSender
  import opened TransferDevice
  import opened TransferSenderRuns
  import opened TransferSession
  import opened TransferSystem
  import opened TransferFirmware
  import Base64

  /** A platform on which nothing fails. */
  const GOOD := Env(0, false, true, true, true, TWO_32, 126, true, true, true, true)

  /** A run in which nothing is lost, nothing fails and the device does not restart. */
  predicate Smooth(actions: seq<Action>) {
    forall i :: 0 <= i < |actions| ==> actions[i].SenderPass? || actions[i] in {DeviceReceives(GOOD), DeviceTask(GOOD)}
  }

  /** A start message a device accepts; a firmware must name the device's build. */
  ghost predicate Acceptable(c: Setup) {
    && 0 < |c.goal.data| < TWO_32 && |c.goal.md5| > 0 && IsValidFileName(c.goal.name)
    && (c.binId.Some? ==> c.binId.value == PIO_ENV) && (Firmware(c.goal) ==> c.binId.Some?)
  }

  /** No firmware image is open that the device has forgotten about; no step of it ever leaves one. */
  ghost predicate Remembers(d: Device) { d.updater.Updating? ==> d.isFw && d.remaining > 0 }

  lemma StepsRemember(d: Device, m: Request, env: Env, md5Is: Md5Is)
    ensures Remembers(PowerUp(d))
    ensures Remembers(d) ==> Remembers(MessageArrived(d, m, env, md5Is).0) && Remembers(RunTask(d, env, md5Is).0)
  {
    hide Begin, StoreBase64, RunTask, IsOwnFirmwareFileName;
    if Remembers(d) {
      match m {
        case Start(size, md5, name, _) => BeginRemembers(d, size, md5, name, env);
        case Piece(number, text) => StoreRemembers(d, number, text, env, md5Is);
      }
      TaskRemembers(d, env, md5Is);
    }
  }

  lemma BeginRemembers(d: Device, size: nat, md5: string, name: string, env: Env)
    requires Remembers(d)
    ensures Remembers(Begin(d, size, Some(md5), Some(name), env).0)
  {
    hide IsValidFileName, IsOwnFirmwareFileName, Md5Local;
  }

  lemma StoreRemembers(d: Device, number: nat, text: seq<Byte>, env: Env, md5Is: Md5Is)
    requires Remembers(d)
    ensures Remembers(StoreBase64(d, number, Some(text), env, md5Is).0)
  {
    hide DecodePiece, Write, Finalize;
    if DecodePiece(text).Bytes? {
      var bytes := DecodePiece(text).bytes;
      WriteKeepsImage(d, bytes, env);
      var w := Write(d, bytes, env).0;
      if |bytes| == d.remaining {
        FinalizeEndsImage(w.(next := (w.next + 1) % TWO_32, remaining := w.remaining - |bytes|, timer := env.now), env,
            md5Is);
      }
    }
  }

  lemma WriteKeepsImage(d: Device, bytes: seq<Byte>, env: Env)
    ensures var w := Write(d, bytes, env).0;
            (w.updater.Updating? ==> d.updater.Updating?) && w.isFw == d.isFw && w.remaining == d.remaining
  {
    hide Stored;
  }

  lemma FinalizeEndsImage(d: Device, env: Env, md5Is: Md5Is)
    ensures Finalize(d, env, md5Is).0.updater.Updating? ==> d.updater.Updating? && !d.isFw
  {}

  lemma TaskRemembers(d: Device, env: Env, md5Is: Md5Is)
    requires Remembers(d)
    ensures Remembers(RunTask(d, env, md5Is).0)
  {
    hide RunValidityCheck;
    CheckRemembers(ReportCheck(d).0, env, md5Is);
  }

  lemma CheckRemembers(d: Device, env: Env, md5Is: Md5Is)
    requires Remembers(d)
    ensures Remembers(RunValidityCheck(d, env, md5Is))
  {
    hide HasElapsed;
  }

  /** Storing piece `k` does not verify a firmware. */
  ghost predicate Plain(c: Setup, k: nat) { Firmware(c.goal) ==> PIECE_SIZE * (k + 1) < |c.goal.data| }

  // ---------------------------------------------------------------- one piece

  /** With a single piece there is no earlier one, so the assumption cannot fail. */
  lemma {:induction false} OnePieceNeedsNoAssumption(c: Setup, s: System, actions: seq<Action>)
    requires |c.goal.data| <= PIECE_SIZE && Consistent(s.snd, c.goal.data) && Possible(c, s, actions)
    ensures AssumptionHolds(c, s, actions)
    decreases |actions|
  {
    if actions != [] {
      OnePieceStep(c, s, actions[0]);
      hide Next, Consistent, NoStaleTraffic;
      OnePieceNeedsNoAssumption(c, Next(c, s, actions[0]), actions[1..]);
    }
  }

  lemma OnePieceStep(c: Setup, s: System, a: Action)
    requires |c.goal.data| <= PIECE_SIZE && Consistent(s.snd, c.goal.data) && Enabled(c, s, a)
    ensures NoStaleTraffic(c, s, a) && Consistent(Next(c, s, a).snd, c.goal.data)
  {
    if a.SenderPass? {
      var pending := Payloads(s.toSnd[..a.taken]);
      PassKeepsConsistent(s.snd, c.goal.data, Pass(pending, a.now));
      DrainKeepsConsistent(s.snd, c.goal.data, pending, a.now);
      OnlyPieceZero(Drain(s.snd, pending, a.now), c.goal.data);
    }
  }

  lemma OnlyPieceZero(s: Sender, data: seq<Byte>)
    requires |data| <= PIECE_SIZE && Consistent(s, data)
    ensures s.last.Some? ==> s.last.value.number == 0
  {
  }

  // ---------------------------------------------------------------- a run without incident

  /** Piece `k`, repeated or not, is on the wire once and the device waits for it. */
  ghost predicate InFlight(c: Setup, s: System, k: nat) {
    var data := c.goal.data;
    && PIECE_SIZE * k < |data|
    && s.snd == Sender(WaitPieceAck, k + 1, |data| - Offset(data, k + 1), s.snd.timer,
                       Some(LastPiece(k, PIECE_SIZE * k, |Slice(data, k)|)), s.snd.retries, s.snd.resent)
    && s.toDev == [PieceMessage(data, k)] && s.toSnd == [] && (s.verified ==> Passed(s.dev))
    && DeviceWaits(c, s.dev, k)
  }

  ghost predicate DeviceWaits(c: Setup, d: Device, k: nat) {
    && d.phase == Storing && d.next == k && Session(d, c.goal, c.md5Is) && d.errs == {}
    && d.restartRequired == Firmware(c.goal)
  }

  /** The result that waits to be reported, if any, is the same, and so is what is in place. */
  predicate SameResult(d: Device, e: Device) {
    e.checkDone == d.checkDone && e.checkValid == d.checkValid && e.files == d.files && e.installed == d.installed
  }

  /** On a platform where nothing fails, the expected piece is accepted. */
  lemma GoodStore(c: Setup, d: Device, k: nat)
    requires Plain(c, k) && DeviceWaits(c, d, k)
    ensures var (e, m) := MessageArrived(d, PieceMessage(c.goal.data, k), GOOD, c.md5Is);
            && m == Some(Response(true, {})) && SameResult(d, e) && e.restartRequired == d.restartRequired
            && (PIECE_SIZE * (k + 1) < |c.goal.data| ==> DeviceWaits(c, e, k + 1))
  {
    hide DecodePiece, Firmware, Slice, Session;
    var bytes := Slice(c.goal.data, k);
    HoldingOf(d, c.goal, c.md5Is);
    SliceOfHolding(d, c.goal);
    EncodedPieceDecodes(bytes);
    assert Stored(true, bytes, GOOD.written) == bytes;
    ExpectedPieceIsStored(d, c.goal, GOOD, c.md5Is);
    NextNumberFits(d, c.goal);
    var (b, ok) := StoreBase64(d, k, Some(Base64.Encode(bytes)), GOOD, c.md5Is);
    GoodStoreAccepts(c, d, k);
    ErrorsDoNotMatter(b, {}, c.goal, c.md5Is);
  }

  lemma GoodStoreAccepts(c: Setup, d: Device, k: nat)
    requires Plain(c, k) && DeviceWaits(c, d, k)
    ensures k < TWO_32
    ensures var (b, ok) := StoreBase64(d, k, Some(Base64.Encode(Slice(c.goal.data, k))), GOOD, c.md5Is);
            && ok && b.errs == {} && SameResult(d, b)
            && b.phase == (if PIECE_SIZE * (k + 1) < |c.goal.data| then Storing else Check) && b.timer == GOOD.now
            && (b.phase == Check ==> b.handle == Reading(0)) && b.restartRequired == d.restartRequired
  {
    hide DecodePiece, Firmware, Slice, Session;
    var bytes := Slice(c.goal.data, k);
    HoldingOf(d, c.goal, c.md5Is);
    SliceOfHolding(d, c.goal);
    EncodedPieceDecodes(bytes);
    assert Stored(true, bytes, GOOD.written) == bytes;
    WriteAppends(d, c.goal, GOOD);
    assert PIECE_SIZE * k < |c.goal.data| < TWO_32;
    if PIECE_SIZE * (k + 1) >= |c.goal.data| {
      assert c.goal.data[..Offset(c.goal.data, k + 1)] == c.goal.data;
    }
  }

  lemma DeviceTakes(c: Setup, s: System, k: nat)
    requires Plain(c, k) && s.toDev != [] && s.toDev[0] == PieceMessage(c.goal.data, k) && DeviceWaits(c, s.dev, k)
    ensures var u := Next(c, s, DeviceReceives(GOOD));
            && u == s.(dev := u.dev, verified := s.verified || Passed(s.dev), toDev := s.toDev[1..],
                       toSnd := s.toSnd + [Tagged(Response(true, {}), AboutPiece(k))])
            && SameResult(s.dev, u.dev) && u.dev.restartRequired == s.dev.restartRequired
            && (PIECE_SIZE * (k + 1) < |c.goal.data| ==> DeviceWaits(c, u.dev, k + 1))
  {
    hide Firmware, MessageArrived, Session;
    GoodStore(c, s.dev, k);
  }

  lemma OnlyPassesRepeat(c: Setup, s: System, a: Action)
    requires Enabled(c, s, a) && !a.SenderPass?
    ensures NoStaleTraffic(c, s, a)
  {}

  /** A pass of the sender over one answer, or over none. */
  lemma SenderTakesOne(c: Setup, s: System, now: int)
    requires |s.toSnd| == 1 && !Over(s.snd) && SliceValid(s.snd, c.goal.data)
    ensures Enabled(c, s, SenderPass(1, now))
    ensures var r := ProcessResponse(s.snd, s.toSnd[0].resp, now);
            && SliceValid(r, c.goal.data)
            && Next(c, s, SenderPass(1, now)) ==
               s.(snd := Act(r, c.goal.data, now).0, toDev := s.toDev + Act(r, c.goal.data, now).1, toSnd := [])
            && (r.state != WaitPieceAck ==> NoStaleTraffic(c, s, SenderPass(1, now)))
  {
    hide ProcessResponse, Act;
    var ts := s.toSnd[..1];
    assert ts == s.toSnd && ts[1..] == [] && Payloads(ts) == [s.toSnd[0].resp] + Payloads(ts[1..]);
    assert Payloads(ts) == [s.toSnd[0].resp];
    DrainKeepsSlices(s.snd, [s.toSnd[0].resp], now);
    DrainOne(s.snd, s.toSnd[0].resp, now);
  }

  lemma DrainOne(s: Sender, m: Response, now: int)
    ensures Drain(s, [m], now) == ProcessResponse(s, m, now)
  {
    hide ProcessResponse;
    assert [m][1..] == [];
    assert Drain(ProcessResponse(s, m, now), [], now) == ProcessResponse(s, m, now);
  }

  lemma SenderTakesNone(c: Setup, s: System, now: int)
    requires !Over(s.snd) && SliceValid(s.snd, c.goal.data)
    ensures Enabled(c, s, SenderPass(0, now))
    ensures Next(c, s, SenderPass(0, now)) ==
            s.(snd := Act(s.snd, c.goal.data, now).0, toDev := s.toDev + Act(s.snd, c.goal.data, now).1)
  {
    hide Act;
    assert Payloads(s.toSnd[..0]) == [] && s.toSnd[0..] == s.toSnd;
  }

  /** What the sender publishes next, and where it then stands. */
  lemma SendsNext(data: seq<Byte>, r: Sender, k: nat, now: int)
    requires r.state == SendingFw && r.pieceNumber == k && r.remaining == |data| - Offset(data, k) > 0
    requires SliceValid(r, data)
    ensures PIECE_SIZE * k < |data|
    ensures var resent := if r.resent.Some? && r.resent.value + 1 < k then None else r.resent;
            Act(r, data, now) ==
            (Sender(WaitPieceAck, k + 1, |data| - Offset(data, k + 1), now,
                    Some(LastPiece(k, PIECE_SIZE * k, |Slice(data, k)|)), 0, resent),
             [PieceMessage(data, k)])
  {
    assert Offset(data, k) == PIECE_SIZE * k;
    var p := NextPiece(r, data);
    assert data[p.offset..Min(p.offset + p.length, |data|)] == Slice(data, k);
  }

  /** The start message is out; nothing is said about what the device was doing. */
  ghost predicate JustStarted(c: Setup, s: System) {
    && (exists now :: s.snd == Started(FRESH, c.goal.data, now))
    && Untouched(s.dev, c.goal) && s.toDev == [StartMessage(c)] && s.toSnd == [] && (s.verified ==> Passed(s.dev))
  }

  lemma FirstExchange(c: Setup, s: System)
    requires Acceptable(c) && JustStarted(c, s) && Remembers(s.dev)
    ensures var a1 := DeviceReceives(GOOD);
            && Enabled(c, s, a1)
            && var a2 := SenderPass(1, s.snd.timer);
               && Enabled(c, Next(c, s, a1), a2) && NoStaleTraffic(c, Next(c, s, a1), a2)
               && InFlight(c, Next(c, Next(c, s, a1), a2), 0) && Next(c, Next(c, s, a1), a2).snd.retries == 0
               && Next(c, Next(c, s, a1), a2).snd.timer == s.snd.timer
               && SameResult(s.dev, Next(c, Next(c, s, a1), a2).dev)
  {
    hide Session, Slice, Firmware;
    var g := c.goal;
    StartAccepted(c, s.dev);
    var u := Next(c, s, DeviceReceives(GOOD));
    assert u.toSnd == [Tagged(Response(true, u.toSnd[0].resp.err), AboutStart)];
    SenderTakesOne(c, u, s.snd.timer);
    var r := ProcessResponse(u.snd, u.toSnd[0].resp, s.snd.timer);
    SendsNext(g.data, r, 0, s.snd.timer);
  }

  lemma StartAccepted(c: Setup, d: Device)
    requires Acceptable(c) && Untouched(d, c.goal) && Remembers(d)
    ensures var (e, m) := MessageArrived(d, StartMessage(c), GOOD, c.md5Is);
            m.Some? && m.value.Response? && m.value.ack && DeviceWaits(c, e, 0) && SameResult(d, e)
  {
    hide Session, Untouched;
    var g := c.goal;
    assert Begin(d, |g.data|, Some(g.md5), Some(g.name), GOOD).1 by { hide IsValidFileName; }
    BeginFlags(d, |g.data|, g.md5, g.name, GOOD);
    BeginOpensSession(d, g, c.md5Is, GOOD);
    var b := Begin(d, |g.data|, Some(g.md5), Some(g.name), GOOD).0;
    FlagDoesNotMatter(b, b.isFw, g, c.md5Is);
    ErrorsDoNotMatter(b.(restartRequired := b.isFw), {}, g, c.md5Is);
  }

  lemma Exchange(c: Setup, s: System, k: nat)
    requires InFlight(c, s, k) && PIECE_SIZE * (k + 1) < |c.goal.data|
    ensures var a1 := DeviceReceives(GOOD);
            && Enabled(c, s, a1)
            && var a2 := SenderPass(1, s.snd.timer);
               && Enabled(c, Next(c, s, a1), a2) && NoStaleTraffic(c, Next(c, s, a1), a2)
               && InFlight(c, Next(c, Next(c, s, a1), a2), k + 1) && Next(c, Next(c, s, a1), a2).snd.retries == 0
               && SameResult(s.dev, Next(c, Next(c, s, a1), a2).dev)
  {
    hide Firmware, Slice, DeviceWaits, PieceMessage, Offset, ProcessResponse, Act, Next;
    DeviceTakes(c, s, k);
    OffsetOfNext(c.goal.data, k);
    var u := Next(c, s, DeviceReceives(GOOD));
    assert u.toSnd[0].resp == Response(true, {});
    SenderTakesOne(c, u, s.snd.timer);
    AckAdvances(u.snd, s.snd.timer);
    var r := ProcessResponse(u.snd, Response(true, {}), s.snd.timer);
    SendsNext(c.goal.data, r, k + 1, s.snd.timer);
    assert [] + [PieceMessage(c.goal.data, k + 1)] == [PieceMessage(c.goal.data, k + 1)];
  }

  lemma OffsetAtEnd(data: seq<Byte>, k: nat)
    requires PIECE_SIZE * k >= |data|
    ensures Offset(data, k) == |data|
  {
  }

  lemma AckAdvances(s: Sender, now: int)
    requires s.state == WaitPieceAck && s.remaining > 0
    ensures ProcessResponse(s, Response(true, {}), now) == s.(state := SendingFw, retries := 0)
  {
  }

  lemma OffsetOfNext(data: seq<Byte>, k: nat)
    requires PIECE_SIZE * (k + 1) < |data|
    ensures Offset(data, k + 1) == PIECE_SIZE * (k + 1) < |data|
  {
  }

  // ---------------------------------------------------------------- the refusal that is credited twice

  /** Both the last piece and the one before it have been repeated, the device has stored all but
      the last, and one copy of the piece before it is still on its way. */
  ghost predicate Astray(c: Setup, s: System, k: nat) {
    && SenderWaits(c, s, k + 1) && s.snd.remaining == 0 && s.snd.resent == Some(k + 1)
    && s.toDev == [PieceMessage(c.goal.data, k), PieceMessage(c.goal.data, k + 1), PieceMessage(c.goal.data, k + 1)]
    && s.toSnd == [] && !s.verified && !Passed(s.dev) && DeviceWaits(c, s.dev, k + 1)
  }

  lemma GoesAstray(c: Setup, s: System, k: nat) returns (u: System, actions: seq<Action>)
    requires InFlight(c, s, k) && s.snd.retries == 0 && !Passed(s.dev)
    requires PIECE_SIZE * (k + 1) < |c.goal.data| <= PIECE_SIZE * (k + 2)
    ensures Possible(c, s, actions) && Smooth(actions) && Final(c, s, actions) == u && Astray(c, u, k)
  {
    hide Firmware, Slice, DeviceWaits, PieceMessage, Offset, Next, Enabled;
    OffsetOfNext(c.goal.data, k);
    OffsetAtEnd(c.goal.data, k + 2);
    var late := s.snd.timer + TIMEOUT_MS + 1;
    var later := late + TIMEOUT_MS + 1;
    var s1 := Repeats(c, s, k, late);
    var s2 := Stores(c, s1, k);
    var s3 := MovesOn(c, s2, k, late);
    u := Repeats(c, s3, k + 1, later);
    actions := [SenderPass(0, late), DeviceReceives(GOOD), SenderPass(1, late), SenderPass(0, later)];
    PathIsRun(c, actions, [s, s1, s2, s3, u]);
  }

  /** The late refusal is read as the acknowledgment of the last piece, and the real one of the
      last piece then as the result of the final check. */
  lemma Detour(c: Setup, s: System, k: nat) returns (u: System, actions: seq<Action>)
    requires !Firmware(c.goal) && Astray(c, s, k)
    ensures Possible(c, s, actions) && Smooth(actions) && Final(c, s, actions) == u
    ensures u.snd.state == Done && !u.verified
  {
    hide Firmware, Slice, DeviceWaits, PieceMessage, Offset, Next, Enabled;
    assert k < TWO_32 by { GoodStoreAccepts(c, s.dev, k + 1); }
    var now := s.snd.timer;
    var s1 := Refuses(c, s, k);
    var s2 := Confirms(c, s1, k + 1, now);
    var s3 := Stores(c, s2, k + 1);
    u := Finishes(c, s3, now);
    actions := [DeviceReceives(GOOD), SenderPass(1, now), DeviceReceives(GOOD), SenderPass(1, now)];
    PathIsRun(c, actions, [s, s1, s2, s3, u]);
  }

  /** The sender waits for piece `k`; the device has yet to store it. */
  ghost predicate SenderWaits(c: Setup, s: System, k: nat) {
    var data := c.goal.data;
    && PIECE_SIZE * k < |data|
    && s.snd.state == WaitPieceAck && s.snd.pieceNumber == k + 1 && s.snd.remaining == |data| - Offset(data, k + 1)
    && s.snd.last == Some(LastPiece(k, PIECE_SIZE * k, |Slice(data, k)|))
  }

  lemma Repeats(c: Setup, s: System, k: nat, now: int) returns (u: System)
    requires SenderWaits(c, s, k) && s.snd.retries < MAX_PIECE_RETRIES && now - s.snd.timer > TIMEOUT_MS
    ensures Enabled(c, s, SenderPass(0, now)) && u == Next(c, s, SenderPass(0, now))
    ensures u == s.(snd := s.snd.(retries := s.snd.retries + 1, resent := Some(k), timer := now),
                    toDev := s.toDev + [PieceMessage(c.goal.data, k)])
  {
    var data := c.goal.data;
    u := s.(snd := s.snd.(retries := s.snd.retries + 1, resent := Some(k), timer := now),
            toDev := s.toDev + [PieceMessage(data, k)]);
    SenderTakesNone(c, s, now);
    assert data[PIECE_SIZE * k..Min(PIECE_SIZE * k + |Slice(data, k)|, |data|)] == Slice(data, k);
  }

  lemma Stores(c: Setup, s: System, k: nat) returns (u: System)
    requires Plain(c, k) && s.toDev != [] && s.toDev[0] == PieceMessage(c.goal.data, k) && DeviceWaits(c, s.dev, k)
    ensures Enabled(c, s, DeviceReceives(GOOD)) && u == Next(c, s, DeviceReceives(GOOD))
    ensures u == s.(dev := u.dev, verified := s.verified || Passed(s.dev), toDev := s.toDev[1..],
                    toSnd := s.toSnd + [Tagged(Response(true, {}), AboutPiece(k))])
    ensures SameResult(s.dev, u.dev) && u.dev.restartRequired == s.dev.restartRequired
    ensures PIECE_SIZE * (k + 1) < |c.goal.data| ==> DeviceWaits(c, u.dev, k + 1)
  {
    hide Next, Firmware, DeviceWaits;
    DeviceTakes(c, s, k);
    u := Next(c, s, DeviceReceives(GOOD));
  }

  lemma MovesOn(c: Setup, s: System, k: nat, now: int) returns (u: System)
    requires SenderWaits(c, s, k) && |s.toSnd| == 1 && s.toSnd[0].resp == Response(true, {})
    requires PIECE_SIZE * (k + 1) < |c.goal.data|
    ensures Enabled(c, s, SenderPass(1, now)) && u == Next(c, s, SenderPass(1, now))
    ensures NoStaleTraffic(c, s, SenderPass(1, now)) && (s.snd.resent == Some(k) ==> u.snd.resent == Some(k))
    ensures SenderWaits(c, u, k + 1) && u.snd.timer == now && u.snd.retries == 0
    ensures u == s.(snd := u.snd, toDev := s.toDev + [PieceMessage(c.goal.data, k + 1)], toSnd := [])
  {
    hide Slice, PieceMessage, Offset, Next, Act, ProcessResponse, NoStaleTraffic;
    OffsetOfNext(c.goal.data, k);
    SenderTakesOne(c, s, now);
    AckAdvances(s.snd, now);
    SendsNext(c.goal.data, ProcessResponse(s.snd, Response(true, {}), now), k + 1, now);
    u := Next(c, s, SenderPass(1, now));
  }

  lemma Refuses(c: Setup, s: System, k: nat) returns (u: System)
    requires s.toDev != [] && s.toDev[0] == PieceMessage(c.goal.data, k) && k < TWO_32
    requires DeviceWaits(c, s.dev, k + 1)
    ensures Enabled(c, s, DeviceReceives(GOOD)) && u == Next(c, s, DeviceReceives(GOOD))
    ensures u == s.(verified := s.verified || Passed(s.dev), toDev := s.toDev[1..],
            toSnd := s.toSnd + [Tagged(Response(false, {WrongFilePieceNumber}), AboutPiece(k))])
  {
    hide Session, StoreBase64;
    OtherPieceIsRefused(s.dev, k, s.toDev[0].text, GOOD, c.md5Is);
    u := Next(c, s, DeviceReceives(GOOD));
    assert {} + {WrongFilePieceNumber} == {WrongFilePieceNumber};
  }

  lemma Confirms(c: Setup, s: System, k: nat, now: int) returns (u: System)
    requires SenderWaits(c, s, k) && s.snd.remaining == 0 && s.snd.resent == Some(k) && s.snd.timer == now
    requires |s.toSnd| == 1 && s.toSnd[0].resp == Response(false, {WrongFilePieceNumber})
    ensures Enabled(c, s, SenderPass(1, now)) && u == Next(c, s, SenderPass(1, now))
    ensures u == s.(snd := u.snd, toSnd := []) && u.snd.state == WaitCheckAck && SliceValid(u.snd, c.goal.data)
  {
    hide Slice, Offset;
    SenderTakesOne(c, s, now);
    u := Next(c, s, SenderPass(1, now));
    assert s.toDev + [] == s.toDev;
  }

  lemma Finishes(c: Setup, s: System, now: int) returns (u: System)
    requires s.snd.state == WaitCheckAck && SliceValid(s.snd, c.goal.data)
    requires |s.toSnd| == 1 && s.toSnd[0].resp == Response(true, {})
    ensures Enabled(c, s, SenderPass(1, now)) && u == Next(c, s, SenderPass(1, now))
    ensures u.snd.state == Done && u.verified == s.verified
  {
    SenderTakesOne(c, s, now);
    u := Next(c, s, SenderPass(1, now));
  }

  // ---------------------------------------------------------------- putting runs together

  lemma {:induction false} PathIsRun(c: Setup, actions: seq<Action>, states: seq<System>)
    requires |states| == |actions| + 1
    requires forall i :: 0 <= i < |actions|
                 ==> Enabled(c, states[i], actions[i]) && states[i + 1] == Next(c, states[i], actions[i])
    ensures Possible(c, states[0], actions) && Final(c, states[0], actions) == states[|actions|]
    ensures (forall i :: 0 <= i < |actions| ==> NoStaleTraffic(c, states[i], actions[i]))
            ==> AssumptionHolds(c, states[0], actions)
    decreases |actions|
  {
    hide Enabled, Next, NoStaleTraffic;
    if actions != [] { PathIsRun(c, actions[1..], states[1..]); }
  }

  lemma {:induction false} RunsCompose(c: Setup, s: System, xs: seq<Action>, ys: seq<Action>)
    requires Possible(c, s, xs) && Possible(c, Final(c, s, xs), ys)
    ensures Possible(c, s, xs + ys) && Final(c, s, xs + ys) == Final(c, Final(c, s, xs), ys)
    ensures AssumptionHolds(c, s, xs) && AssumptionHolds(c, Final(c, s, xs), ys) ==> AssumptionHolds(c, s, xs + ys)
    decreases |xs|
  {
    hide Enabled, Next, NoStaleTraffic;
    if xs == [] {
      assert xs + ys == ys;
    } else {
      RunsCompose(c, Next(c, s, xs[0]), xs[1..], ys);
      assert (xs + ys)[0] == xs[0] && (xs + ys)[1..] == xs[1..] + ys;
    }
  }

  /** From the first piece in flight every later one can be, by answers that are simply in time. */
  lemma {:induction false} ReachesFrom(c: Setup, s: System, k: nat) returns (u: System, actions: seq<Action>)
    requires InFlight(c, s, 0) && s.snd.retries == 0 && PIECE_SIZE * k < |c.goal.data|
    ensures Possible(c, s, actions) && Smooth(actions) && Final(c, s, actions) == u && InFlight(c, u, k)
    ensures AssumptionHolds(c, s, actions) && SameResult(s.dev, u.dev) && u.snd.retries == 0
    decreases k
  {
    hide Enabled, Next, InFlight, NoStaleTraffic;
    if k == 0 {
      u, actions := s, [];
    } else {
      var t, before := ReachesFrom(c, s, k - 1);
      Exchange(c, t, k - 1);
      var two := [DeviceReceives(GOOD), SenderPass(1, t.snd.timer)];
      OnlyPassesRepeat(c, t, two[0]);
      var t1 := Next(c, t, two[0]);
      u := Next(c, t1, two[1]);
      PathIsRun(c, two, [t, t1, u]);
      actions := before + two;
      RunsCompose(c, s, before, two);
    }
  }

  /** And the first one, from the start. */
  lemma Reaches(c: Setup, s: System, k: nat) returns (u: System, actions: seq<Action>)
    requires Acceptable(c) && JustStarted(c, s) && Remembers(s.dev) && PIECE_SIZE * k < |c.goal.data|
    ensures Possible(c, s, actions) && Smooth(actions) && Final(c, s, actions) == u && InFlight(c, u, k)
    ensures AssumptionHolds(c, s, actions) && SameResult(s.dev, u.dev) && u.snd.retries == 0
  {
    hide Enabled, Next, InFlight, JustStarted, Firmware, NoStaleTraffic;
    FirstExchange(c, s);
    var two := [DeviceReceives(GOOD), SenderPass(1, s.snd.timer)];
    OnlyPassesRepeat(c, s, two[0]);
    var s1 := Next(c, s, two[0]);
    var t := Next(c, s1, two[1]);
    PathIsRun(c, two, [s, s1, t]);
    var rest;
    u, rest := ReachesFrom(c, t, k);
    RunsCompose(c, s, two, rest);
    actions := two + rest;
  }

  // ---------------------------------------------------------------- the refusals that are credited to two pieces

  /** A refusal that confirms the piece in flight, with more to send: the next piece goes out. */
  lemma ConfirmsAndMovesOn(c: Setup, s: System, k: nat, now: int) returns (u: System)
    requires SenderWaits(c, s, k) && s.snd.resent == Some(k) && PIECE_SIZE * (k + 1) < |c.goal.data|
    requires |s.toSnd| == 1 && s.toSnd[0].resp == Response(false, {WrongFilePieceNumber})
    ensures Enabled(c, s, SenderPass(1, now)) && u == Next(c, s, SenderPass(1, now))
    ensures SenderWaits(c, u, k + 1) && u.snd.timer == now && u.snd.retries == 0
            && NoStaleTraffic(c, s, SenderPass(1, now))
    ensures u == s.(snd := u.snd, toDev := s.toDev + [PieceMessage(c.goal.data, k + 1)], toSnd := [])
  {
    hide Slice, PieceMessage, Offset, Next, Act, ProcessResponse, NoStaleTraffic;
    OffsetOfNext(c.goal.data, k);
    SenderTakesOne(c, s, now);
    RefusalAdvances(s.snd, now);
    SendsNext(c.goal.data, ProcessResponse(s.snd, Response(false, {WrongFilePieceNumber}), now), k + 1, now);
    u := Next(c, s, SenderPass(1, now));
  }

  lemma RefusalAdvances(s: Sender, now: int)
    requires s.state == WaitPieceAck && s.remaining > 0 && s.last.Some? && s.resent == Some(s.last.value.number)
    ensures ProcessResponse(s, Response(false, {WrongFilePieceNumber}), now)
            == s.(state := SendingFw, retries := 0, resent := None)
  {}

  /** Piece `k` was sent three times and stored once, piece `k + 1` has been repeated, and the device has
      yet to see all that. */
  ghost predicate Behind(c: Setup, s: System, k: nat) {
    var data := c.goal.data;
    && SenderWaits(c, s, k + 1) && s.snd.resent == Some(k + 1)
    && s.toDev == [PieceMessage(data, k), PieceMessage(data, k), PieceMessage(data, k + 1), PieceMessage(data, k + 1)]
    && s.toSnd == [] && !s.verified && !Passed(s.dev) && DeviceWaits(c, s.dev, k + 1)
  }

  lemma FallsBehind(c: Setup, s: System, k: nat) returns (u: System, actions: seq<Action>)
    requires InFlight(c, s, k) && s.snd.retries == 0 && !Passed(s.dev) && PIECE_SIZE * (k + 1) < |c.goal.data|
    ensures Possible(c, s, actions) && Smooth(actions) && Final(c, s, actions) == u && Behind(c, u, k)
  {
    hide Firmware, Slice, DeviceWaits, PieceMessage, Offset, Next, Enabled;
    var step := TIMEOUT_MS + 1;
    var (t1, t2, t3) := (s.snd.timer + step, s.snd.timer + 2 * step, s.snd.timer + 3 * step);
    var s1 := Repeats(c, s, k, t1);
    var s2 := Repeats(c, s1, k, t2);
    var s3 := Stores(c, s2, k);
    var s4 := MovesOn(c, s3, k, t2);
    u := Repeats(c, s4, k + 1, t3);
    actions := [SenderPass(0, t1), SenderPass(0, t2), DeviceReceives(GOOD), SenderPass(1, t2), SenderPass(0, t3)];
    PathIsRun(c, actions, [s, s1, s2, s3, s4, u]);
  }

  /** The first refusal of piece `k` is read as the acceptance of piece `k + 1`, the second as that of
      the last one. */
  ghost predicate FarBehind(c: Setup, s: System, k: nat) {
    var data := c.goal.data;
    && s.snd.state == WaitCheckAck && SliceValid(s.snd, data)
    && s.toDev == [PieceMessage(data, k + 1), PieceMessage(data, k + 1), PieceMessage(data, k + 2),
       PieceMessage(data, k + 2)]
    && s.toSnd == [] && !s.verified && !Passed(s.dev) && DeviceWaits(c, s.dev, k + 1)
  }

  lemma FallsFarBehind(c: Setup, s: System, k: nat) returns (u: System, actions: seq<Action>)
    requires Behind(c, s, k) && PIECE_SIZE * (k + 2) < |c.goal.data| <= PIECE_SIZE * (k + 3)
    ensures Possible(c, s, actions) && Smooth(actions) && Final(c, s, actions) == u && FarBehind(c, u, k)
  {
    hide Firmware, Slice, DeviceWaits, PieceMessage, Offset, Next, Enabled;
    assert k < TWO_32 by { GoodStoreAccepts(c, s.dev, k + 1); }
    OffsetAtEnd(c.goal.data, k + 3);
    var (now, late) := (s.snd.timer, s.snd.timer + TIMEOUT_MS + 1);
    var s1 := Refuses(c, s, k);
    var s2 := ConfirmsAndMovesOn(c, s1, k + 1, now);
    var s3 := Repeats(c, s2, k + 2, late);
    var s4 := Refuses(c, s3, k);
    u := Confirms(c, s4, k + 2, late);
    actions := [DeviceReceives(GOOD), SenderPass(1, now), SenderPass(0, late), DeviceReceives(GOOD),
        SenderPass(1, late)];
    PathIsRun(c, actions, [s, s1, s2, s3, s4, u]);
  }

  /** The acceptance of piece `k + 1` is then read as the result of the check. */
  lemma EndsUnverified(c: Setup, s: System, k: nat) returns (u: System, actions: seq<Action>)
    requires FarBehind(c, s, k) && PIECE_SIZE * (k + 2) < |c.goal.data|
    ensures Possible(c, s, actions) && Smooth(actions) && Final(c, s, actions) == u && u.snd.state == Done
            && !u.verified
  {
    hide Firmware, Slice, DeviceWaits, PieceMessage, Offset, Next, Enabled;
    var now := s.snd.timer;
    var s1 := Stores(c, s, k + 1);
    u := Finishes(c, s1, now);
    actions := [DeviceReceives(GOOD), SenderPass(1, now)];
    PathIsRun(c, actions, [s, s1, u]);
  }

  lemma InitialIsStarted(c: Setup, s: System)
    requires Initial(c, s)
    ensures JustStarted(c, s) && !Passed(s.dev)
  {}

  /** For every transfer of more than two pieces, a firmware too, some possible run without loss or
      restart reaches DONE unverified. */
  lemma TwoRefusalsAreCredited(c: Setup, s: System) returns (actions: seq<Action>)
    requires Acceptable(c) && Initial(c, s) && Remembers(s.dev) && |c.goal.data| > 2 * PIECE_SIZE
    ensures Possible(c, s, actions) && Smooth(actions)
    ensures var u := Final(c, s, actions); u.snd.state == Done && !u.verified && !DoneIsTrue(c, u)
  {
    hide Enabled, Next, InFlight, Initial, JustStarted, Firmware, Possible, Final, Behind, FarBehind;
    var k := (|c.goal.data| - 1) / PIECE_SIZE - 2;
    InitialIsStarted(c, s);
    var t, before := Reaches(c, s, k);
    var behind, x := FallsBehind(c, t, k);
    var far, y := FallsFarBehind(c, behind, k);
    var u, z := EndsUnverified(c, far, k);
    RunsCompose(c, behind, y, z);
    RunsCompose(c, t, x, y + z);
    RunsCompose(c, s, before, x + (y + z));
    actions := before + (x + (y + z));
  }

  /** For every ordinary file of more than one piece some possible run reaches DONE unverified. */
  lemma StaleRefusalIsCredited(c: Setup, s: System) returns (actions: seq<Action>)
    requires Acceptable(c) && Initial(c, s) && Remembers(s.dev) && !Firmware(c.goal) && |c.goal.data| > PIECE_SIZE
    ensures Possible(c, s, actions) && Smooth(actions)
    ensures var u := Final(c, s, actions); u.snd.state == Done && !u.verified && !DoneIsTrue(c, u)
  {
    hide Enabled, Next, InFlight, Initial, JustStarted, Firmware, Possible, Final, Astray;
    var k := (|c.goal.data| - 1) / PIECE_SIZE - 1;
    InitialIsStarted(c, s);
    var t, before := Reaches(c, s, k);
    var astray, middle := GoesAstray(c, t, k);
    var u, end := Detour(c, astray, k);
    RunsCompose(c, t, middle, end);
    RunsCompose(c, s, before, middle + end);
    actions := before + (middle + end);
  }

  /** Up to which size the sender's assumption is not needed: a firmware is verified by its last piece,
      a file only after it. */
  function SafeSize(c: Setup): nat { if Firmware(c.goal) then 2 * PIECE_SIZE else PIECE_SIZE }

  /** DONE can be relied on over every interleaving, assumption or not, exactly for an ordinary file of
      one piece and a firmware of at most two. */
  lemma UnconditionallySafeIff(c: Setup, s: System)
    requires Acceptable(c) && Initial(c, s) && Remembers(s.dev)
    ensures (forall actions :: Possible(c, s, actions) ==> DoneIsTrue(c, Final(c, s, actions)))
       <==> |c.goal.data| <= SafeSize(c)
  {
    hide DoneIsTrue, Acceptable, Firmware;
    if |c.goal.data| <= SafeSize(c) {
      forall actions | Possible(c, s, actions) ensures DoneIsTrue(c, Final(c, s, actions)) {
        if Firmware(c.goal) {
          TwoPieceFirmwareIsSafe(c, s, actions);
        } else {
          InitialInv(c, s);
          OnePieceNeedsNoAssumption(c, s, actions);
          DoneOnlyAfterDelivery(c, s, actions);
        }
      }
    } else if Firmware(c.goal) {
      var actions := TwoRefusalsAreCredited(c, s);
    } else {
      var actions := StaleRefusalIsCredited(c, s);
    }
  }
}
