/** One transfer as the device sees it: what holds from a successful `begin()` on, however the
    pieces of that transfer are lost, repeated or reordered. */
module TransferSession {
  import opened Common
  import opened TransferSender
  import opened TransferDevice
  import opened TransferSenderRuns
  import Base64

  /** What is being transferred, and what the device stored before. */
  datatype Goal = Goal(data: seq<Byte>, md5: string, name: string, files: map<string, seq<Byte>>,
                       installed: Option<seq<Byte>>)

  predicate Firmware(g: Goal) { IsOwnFirmwareFileName(g.name) }

  /** The target is in place, complete, its hash confirmed, and nothing else changed. */
  ghost predicate Delivered(d: Device, g: Goal, md5Is: Md5Is) {
    && md5Is(g.data, Md5Local(g.md5))
    && if Firmware(g) then d.installed == Some(g.data) && d.files == g.files
       else d.files == g.files[g.name := g.data] && d.installed == g.installed
  }

  ghost predicate Untouched(d: Device, g: Goal) {
    d.files == g.files && d.installed == g.installed
  }

  /** STORING: exactly the first `next` pieces are in the open store. */
  ghost predicate Holding(d: Device, g: Goal) {
    && |g.data| < TWO_32
    && d.fileSize == |g.data| && d.md5 == Md5Local(g.md5) && d.name == g.name && d.isFw == Firmware(g)
    && d.remaining == |g.data| - Offset(g.data, d.next) && d.remaining > 0
    && if Firmware(g) then d.updater == Updating(|g.data|, d.md5, g.data[..Offset(g.data, d.next)])
       else d.handle == Writing && d.temp == g.data[..Offset(g.data, d.next)]
  }

  /** CHECK: the temp file is the whole data, and the hash has seen a prefix of it. */
  ghost predicate Checking(d: Device, g: Goal) {
    && !Firmware(g) && d.md5 == Md5Local(g.md5) && d.name == g.name
    && d.temp == g.data && d.handle.Reading? && d.handle.pos <= |g.data| && d.hashed == g.data[..d.handle.pos]
  }

  /** What every step of the device keeps after `begin()` succeeded. */
  ghost predicate Session(d: Device, g: Goal, md5Is: Md5Is) {
    && (d.phase == Storing ==> Holding(d, g))
    && (d.phase == Check ==> Checking(d, g))
    && (!Firmware(g) ==> d.temp <= g.data)
    && (Untouched(d, g) || Delivered(d, g, md5Is))
  }

  /** A positive result that is waiting to be sent is a true one, and the storing is over. */
  ghost predicate ResultHonest(d: Device, g: Goal, md5Is: Md5Is) {
    Passed(d) ==> Delivered(d, g, md5Is) && d.phase != Storing
  }

  predicate Passed(d: Device) { d.checkDone && d.checkValid }

  // ---------------------------------------------------------------- steps

  /** A successful `begin()` opens a session, from any earlier state of the device. */
  lemma BeginOpensSession(d: Device, g: Goal, md5Is: Md5Is, env: Env)
    requires |g.data| < TWO_32 && Untouched(d, g)
    requires Begin(d, |g.data|, Some(g.md5), Some(g.name), env).1
    ensures var b := Begin(d, |g.data|, Some(g.md5), Some(g.name), env).0;
            Session(b, g, md5Is) && b.phase == Storing && b.next == 0
  {
  }

  // ---------------------------------------------------------------- a begin() that fails late

  /** Anything that can happen up to the next `begin()`: any piece of any transfer, a pass, a restart. */
  datatype Later = AnyPiece(number: nat, text: seq<Byte>, env: Env) | AnyPass(env: Env) | AnyRestart

  function AfterOne(d: Device, e: Later, md5Is: Md5Is): Device {
    match e
    case AnyPiece(number, text, env) => MessageArrived(d, Piece(number, text), env, md5Is).0
    case AnyPass(env) => RunTask(d, env, md5Is).0
    case AnyRestart => PowerUp(d)
  }

  function AfterLater(d: Device, events: seq<Later>, md5Is: Md5Is): Device
    decreases |events|
  {
    if events == [] then d else AfterLater(AfterOne(d, events[0], md5Is), events[1..], md5Is)
  }

  /** A check that was under way, whose hash so far is the new transfer's, would put the temp file in
      place under the new name. (A pending firmware result restarts the device before that.) */
  ghost predicate Dangerous(d: Device, md5Is: Md5Is) {
    d.phase == Check && md5Is(d.hashed, d.md5) && !(Passed(d) && d.restartRequired)
        && d.files[d.name := d.temp] != d.files
  }

  ghost predicate Harmless(d: Device, files: map<string, seq<Byte>>, installed: Option<seq<Byte>>, md5Is: Md5Is) {
    && d.files == files && d.installed == installed
    && !d.isFw && d.handle == Closed && !Dangerous(d, md5Is)
  }

  /** Nothing can be stored into a closed file. */
  lemma ClosedStoreFails(b: Device, number: nat, text: seq<Byte>, later: Env, md5Is: Md5Is)
    requires !b.isFw && b.handle == Closed
    ensures var (a, ok) := StoreBase64(b, number, Some(text), later, md5Is);
            !ok && a == b.(errs := a.errs, phase := a.phase) && (a.phase == b.phase || a.phase == Cleanup)
  {
    hide DecodePiece;
    assert b.temp + [] == b.temp;
  }

  lemma HarmlessPiece(d: Device, files: map<string, seq<Byte>>, installed: Option<seq<Byte>>, number: nat,
                      text: seq<Byte>, env: Env, md5Is: Md5Is)
    requires Harmless(d, files, installed, md5Is)
    ensures Harmless(MessageArrived(d, Piece(number, text), env, md5Is).0, files, installed, md5Is)
  {
    hide StoreBase64;
    ClosedStoreFails(d, number, text, env, md5Is);
  }

  lemma HarmlessPass(d: Device, files: map<string, seq<Byte>>, installed: Option<seq<Byte>>, env: Env, md5Is: Md5Is)
    requires Harmless(d, files, installed, md5Is)
    ensures Harmless(RunTask(d, env, md5Is).0, files, installed, md5Is)
  {
    hide RunValidityCheck;
    var r := ReportCheck(d).0;
    HarmlessCheck(r, files, installed, env, md5Is);
  }

  /** No restart is due once the result has been reported, so a check that goes on must fail. */
  lemma HarmlessCheck(d: Device, files: map<string, seq<Byte>>, installed: Option<seq<Byte>>, env: Env, md5Is: Md5Is)
    requires Harmless(d, files, installed, md5Is) && !d.checkDone
    ensures Harmless(RunValidityCheck(d, env, md5Is), files, installed, md5Is)
  {
    hide HasElapsed;
  }

  lemma {:induction false} HarmlessRun(d: Device, files: map<string, seq<Byte>>, installed: Option<seq<Byte>>,
                                       events: seq<Later>, md5Is: Md5Is)
    requires Harmless(d, files, installed, md5Is)
    ensures Harmless(AfterLater(d, events, md5Is), files, installed, md5Is)
    decreases |events|
  {
    hide Harmless, MessageArrived, RunTask;
    if events != [] {
      match events[0] {
        case AnyPiece(number, text, env) => HarmlessPiece(d, files, installed, number, text, env, md5Is);
        case AnyPass(env) => HarmlessPass(d, files, installed, env, md5Is);
        case AnyRestart => HarmlessRestart(d, files, installed, md5Is);
      }
      HarmlessRun(AfterOne(d, events[0], md5Is), files, installed, events[1..], md5Is);
    }
  }

  lemma HarmlessRestart(d: Device, files: map<string, seq<Byte>>, installed: Option<seq<Byte>>, md5Is: Md5Is)
    requires Harmless(d, files, installed, md5Is)
    ensures Harmless(PowerUp(d), files, installed, md5Is)
  {}

  /** What a late failure leaves behind. */
  lemma RefusedLate(d: Device, size: nat, md5: string, name: string, env: Env)
    requires !Begin(d, size, Some(md5), Some(name), env).1 && BeginRefusal(size, Some(md5), Some(name), env).None?
    ensures var b := Begin(d, size, Some(md5), Some(name), env).0;
            && b.phase == d.phase && b.files == d.files && b.installed == d.installed && b.hashed == d.hashed
            && b.timer == d.timer
            && !b.isFw && b.handle == Closed && b.md5 == Md5Local(md5) && b.name == name
            && b.checkDone == d.checkDone && b.checkValid == d.checkValid && b.restartRequired == d.restartRequired
            && b.temp == LeftTemp(d, name, env)
  {
    hide BeginRefusal, IsOwnFirmwareFileName, Md5Local, Open;
    OpenRefused(Reset(d, size, md5, name), env);
  }

  lemma OpenRefused(r: Device, env: Env)
    requires !Open(r, env).1 && r.handle == Closed
    ensures var b := Open(r, env).0;
            b == r.(isFw := false, errs := b.errs, updater := b.updater,
                temp := if r.isFw || !env.opens then r.temp else [])
  {}

  /** What a `begin()` that fails late leaves in the temp file: opening it has emptied it. */
  function LeftTemp(d: Device, name: string, env: Env): seq<Byte> {
    if IsOwnFirmwareFileName(name) || !env.opens then d.temp else []
  }

  /** A `begin()` that fails late leaves `transferState` as it was. What is stored then stays untouched on
      every run up to the next `begin()` exactly unless the device was checking an earlier file and the
      hash so far is the one just announced. */
  lemma RefusedBeginIsHarmlessIff(d: Device, size: nat, md5: string, name: string, env: Env, md5Is: Md5Is)
    requires !Begin(d, size, Some(md5), Some(name), env).1 && BeginRefusal(size, Some(md5), Some(name), env).None?
    ensures var b := Begin(d, size, Some(md5), Some(name), env).0;
            (forall events :: var a := AfterLater(b, events, md5Is); a.files == d.files && a.installed == d.installed)
            <==> !(d.phase == Check && md5Is(d.hashed, Md5Local(md5)) && !(Passed(d) && d.restartRequired)
                   && d.files[name := LeftTemp(d, name, env)] != d.files)
  {
    hide Begin, AfterLater, Md5Local, BeginRefusal;
    RefusedLate(d, size, md5, name, env);
    var b := Begin(d, size, Some(md5), Some(name), env).0;
    if Dangerous(b, md5Is) {
      var e := Env(b.timer, false, true, true, true, 0, 0, true, true, true, true);
      DangerStrikes(b, e, md5Is);
      OneLater(b, AnyPass(e), md5Is);
    } else {
      forall events ensures var a := AfterLater(b, events, md5Is); a.files == d.files && a.installed == d.installed {
        HarmlessRun(b, d.files, d.installed, events, md5Is);
      }
    }
  }

  lemma DangerStrikes(b: Device, e: Env, md5Is: Md5Is)
    requires Dangerous(b, md5Is) && b.handle == Closed && e.now == b.timer && e.renamed
    ensures RunTask(b, e, md5Is).0.files == b.files[b.name := b.temp] && Passed(RunTask(b, e, md5Is).0)
  {}

  lemma OneLater(d: Device, e: Later, md5Is: Md5Is)
    ensures AfterLater(d, [e], md5Is) == AfterOne(d, e, md5Is)
  {
    hide AfterOne;
    assert [e][1..] == [] && AfterLater(AfterOne(d, e, md5Is), [], md5Is) == AfterOne(d, e, md5Is);
  }

  // ---------------------------------------------------------------- storing

  lemma SliceOfHolding(d: Device, g: Goal)
    requires Holding(d, g)
    ensures PIECE_SIZE * d.next < |g.data|
    ensures 0 < |Slice(g.data, d.next)| <= PIECE_SIZE && |Slice(g.data, d.next)| <= d.remaining
    ensures |Slice(g.data, d.next)| == d.remaining <==> Offset(g.data, d.next + 1) == |g.data|
    ensures g.data[..Offset(g.data, d.next)] + Slice(g.data, d.next) == g.data[..Offset(g.data, d.next + 1)]
    ensures d.remaining - |Slice(g.data, d.next)| == |g.data| - Offset(g.data, d.next + 1)
  {
  }

  /** What storing the expected piece leads to: the next piece, the final check, or the end. */
  ghost predicate StoredOne(d: Device, a: Device, ok: bool, g: Goal, md5Is: Md5Is) {
    && Session(a, g, md5Is)
    && (a.phase == Storing ==> ok && a.next == d.next + 1)
    && (Firmware(g) && ok ==> a.phase == Storing || (Passed(a) && Delivered(a, g, md5Is)))
    && (!ok ==> a.checkDone == d.checkDone && a.checkValid == d.checkValid)
    && (a.phase == Storing ==> a.checkDone == d.checkDone && a.checkValid == d.checkValid)
    && (ResultHonest(d, g, md5Is) ==> ResultHonest(a, g, md5Is))
    && (WrongFilePieceNumber !in d.errs ==> WrongFilePieceNumber !in a.errs)
    && (Delivered(d, g, md5Is) ==> Delivered(a, g, md5Is))
  }

  /** The device stores the piece it waits for: the answer is positive only if it did. */
  lemma ExpectedPieceIsStored(d: Device, g: Goal, env: Env, md5Is: Md5Is)
    requires d.phase == Storing && Session(d, g, md5Is)
    ensures var (a, ok) := StoreBase64(d, d.next, Some(Base64.Encode(Slice(g.data, d.next))), env, md5Is);
            StoredOne(d, a, ok, g, md5Is)
  {
    hide DecodePiece, StoreBytes, StoredOne, Slice;
    SliceOfHolding(d, g);
    EncodedPieceDecodes(Slice(g.data, d.next));
    SliceIsStored(d, g, env, md5Is);
  }

  lemma SliceIsStored(d: Device, g: Goal, env: Env, md5Is: Md5Is)
    requires d.phase == Storing && Session(d, g, md5Is)
    ensures |Slice(g.data, d.next)| <= d.remaining
    ensures var (a, ok) := StoreBytes(d, Slice(g.data, d.next), env, md5Is); StoredOne(d, a, ok, g, md5Is)
  {
    hide Write, Finalize, Slice, Offset, Firmware, Md5Local, StoredOne, Session;
    HoldingOf(d, g, md5Is);
    SliceOfHolding(d, g);
    WriteAppends(d, g, env);
    NextNumberFits(d, g);
    var (w, ok) := Write(d, Slice(g.data, d.next), env);
    if ok {
      var t := w.(next := d.next + 1, remaining := w.remaining - |Slice(g.data, d.next)|, timer := env.now);
      if t.remaining == 0 {
        LastOneStored(d, t, g, env, md5Is);
      } else {
        OneMoreHeld(d, t, g, md5Is);
      }
    } else {
      ShortWriteEnds(d, w, g, md5Is);
    }
  }

  lemma HoldingOf(d: Device, g: Goal, md5Is: Md5Is)
    requires Session(d, g, md5Is) && d.phase == Storing
    ensures Holding(d, g) && (!Firmware(g) ==> d.temp <= g.data)
  {
    hide Firmware;
  }

  /** The state after a full write of the expected piece. */
  ghost predicate Extended(d: Device, t: Device, g: Goal) {
    var stored := g.data[..Offset(g.data, d.next + 1)];
    && t == (if Firmware(g) then d.(updater := Updating(|g.data|, d.md5, stored)) else d.(temp := stored))
       .(next := d.next + 1, remaining := |g.data| - Offset(g.data, d.next + 1), timer := t.timer)
  }

  lemma OneMoreHeld(d: Device, t: Device, g: Goal, md5Is: Md5Is)
    requires d.phase == Storing && Session(d, g, md5Is) && Extended(d, t, g) && t.remaining > 0
    ensures StoredOne(d, t, true, g, md5Is)
  {
    hide Firmware, Offset, Md5Local;
  }

  lemma LastOneStored(d: Device, t: Device, g: Goal, env: Env, md5Is: Md5Is)
    requires d.phase == Storing && Session(d, g, md5Is) && Extended(d, t, g) && t.remaining == 0
    ensures var (a, ok) := Finalize(t, env, md5Is); StoredOne(d, a, ok, g, md5Is)
  {
    hide Firmware, Offset, Md5Local, Finalize;
    assert g.data[..Offset(g.data, d.next + 1)] == g.data;
    FinalizeIsHonest(t, g, env, md5Is);
  }

  lemma ShortWriteEnds(d: Device, w: Device, g: Goal, md5Is: Md5Is)
    requires d.phase == Storing && Session(d, g, md5Is) && w.phase == Cleanup
    requires w.files == d.files && w.installed == d.installed && w.checkDone == d.checkDone
             && w.checkValid == d.checkValid
    requires !Firmware(g) ==> w.temp <= g.data
    requires WrongFilePieceNumber in w.errs ==> WrongFilePieceNumber in d.errs
    ensures StoredOne(d, w, false, g, md5Is)
  {
    hide Firmware, Md5Local;
  }

  lemma NextNumberFits(d: Device, g: Goal)
    requires Holding(d, g)
    ensures (d.next + 1) % TWO_32 == d.next + 1
  {
    SliceOfHolding(d, g);
  }

  /** A full write extends the store by one slice; a short one leaves a prefix and gives up. */
  lemma WriteAppends(d: Device, g: Goal, env: Env)
    requires Holding(d, g) && d.phase == Storing && (!Firmware(g) ==> d.temp <= g.data)
    ensures var (w, ok) := Write(d, Slice(g.data, d.next), env);
            var stored := g.data[..Offset(g.data, d.next + 1)];
            && w.files == d.files && w.installed == d.installed
            && w.checkDone == d.checkDone && w.checkValid == d.checkValid
            && (!Firmware(g) ==> w.temp <= g.data)
            && (ok ==> w == (if Firmware(g) then d.(updater := Updating(|g.data|, d.md5, stored))
               else d.(temp := stored)))
            && (!ok ==> w.phase == Cleanup && (WrongFilePieceNumber in w.errs ==> WrongFilePieceNumber in d.errs))
  {
    SliceOfHolding(d, g);
    var bytes := Slice(g.data, d.next);
    var w := Stored(true, bytes, env.written);
    assert bytes[..|bytes|] == bytes;
    if !Firmware(g) {
      assert d.temp + w == g.data[..Offset(g.data, d.next) + |w|];
    }
  }

  lemma FinalizeIsHonest(t: Device, g: Goal, env: Env, md5Is: Md5Is)
    requires t.fileSize == |g.data| && t.md5 == Md5Local(g.md5) && t.name == g.name && t.isFw == Firmware(g)
    requires if Firmware(g) then t.updater == Updating(|g.data|, t.md5, g.data) else t.temp == g.data
    requires Untouched(t, g) || Delivered(t, g, md5Is)
    ensures var (a, ok) := Finalize(t, env, md5Is);
            && Session(a, g, md5Is) && a.phase != Storing
            && (Firmware(g) && ok ==> Passed(a) && Delivered(a, g, md5Is))
            && (!ok ==> a.checkDone == t.checkDone && a.checkValid == t.checkValid)
            && (ResultHonest(t, g, md5Is) ==> ResultHonest(a, g, md5Is))
            && (WrongFilePieceNumber in a.errs ==> WrongFilePieceNumber in t.errs)
            && (Delivered(t, g, md5Is) ==> Delivered(a, g, md5Is))
  {
    assert g.data[..0] == [];
  }

  /** Any other piece of the transfer changes nothing but the error mask. */
  lemma OtherPieceIsRefused(d: Device, number: nat, text: seq<Byte>, env: Env, md5Is: Md5Is)
    requires d.phase != Storing || number != d.next
    ensures StoreBase64(d, number, Some(text), env, md5Is) ==
            (d.(errs := d.errs + {if d.phase == Storing then WrongFilePieceNumber else BeginNotCalled}), false)
  {
  }

  /** One pass of `MqttCommon::run()` keeps the session; a positive report is the pending result, and a
      true one if that was. A result of an earlier transfer is gone after it. */
  lemma RunKeepsSession(d: Device, g: Goal, env: Env, md5Is: Md5Is)
    requires Session(d, g, md5Is)
    ensures var (a, m) := RunTask(d, env, md5Is);
            && Session(a, g, md5Is) && ResultHonest(a, g, md5Is)
            && (m.Some? ==> m.value.Response? && m.value.err == d.errs)
            && (m.Some? && m.value.ack ==>
                 Passed(d)
                 && (ResultHonest(d, g, md5Is) ==> Delivered(a, g, md5Is) && a.phase != Storing))
            && (WrongFilePieceNumber in a.errs ==> WrongFilePieceNumber in d.errs)
            && (Delivered(d, g, md5Is) ==> Delivered(a, g, md5Is))
            && (a.phase == Storing ==> d.phase == Storing && a.next == d.next)
  {
    var (r, m) := ReportCheck(d);
    assert Session(r, g, md5Is) && ResultHonest(r, g, md5Is);
    CheckKeepsSession(r, g, env, md5Is);
  }

  lemma CheckKeepsSession(d: Device, g: Goal, env: Env, md5Is: Md5Is)
    requires Session(d, g, md5Is) && ResultHonest(d, g, md5Is)
    ensures var a := RunValidityCheck(d, env, md5Is);
            && Session(a, g, md5Is) && ResultHonest(a, g, md5Is)
            && (Delivered(d, g, md5Is) ==> Delivered(a, g, md5Is))
            && (a.phase == Storing ==> d.phase == Storing && a.next == d.next)
            && (WrongFilePieceNumber in a.errs ==> WrongFilePieceNumber in d.errs)
  {
    hide HasElapsed, CheckPass, CleanupTransfer;
    var expired := d.phase in {Storing, Check} && HasElapsed(env.now, d.timer, TRANSFER_TIMEOUT_MS);
    if d.phase == Check && !expired {
      CheckPassKeepsSession(d, g, env, md5Is);
    } else if expired || d.phase == Cleanup {
      CleanupKeepsSession(d.(phase := Cleanup), g, md5Is);
    }
  }

  lemma CleanupKeepsSession(d: Device, g: Goal, md5Is: Md5Is)
    requires d.phase == Cleanup && Session(d, g, md5Is) && ResultHonest(d, g, md5Is)
    ensures var a := CleanupTransfer(d);
            && Session(a, g, md5Is) && ResultHonest(a, g, md5Is) && a.phase == Quiet
            && (WrongFilePieceNumber in a.errs ==> WrongFilePieceNumber in d.errs)
            && (Delivered(d, g, md5Is) ==> Delivered(a, g, md5Is))
  {
  }

  lemma CheckPassKeepsSession(d: Device, g: Goal, env: Env, md5Is: Md5Is)
    requires d.phase == Check && Session(d, g, md5Is) && ResultHonest(d, g, md5Is)
    ensures var a := CheckPass(d, env, md5Is);
            && Session(a, g, md5Is) && ResultHonest(a, g, md5Is) && a.phase in {Check, Cleanup}
            && (WrongFilePieceNumber in a.errs ==> WrongFilePieceNumber in d.errs)
            && (Delivered(d, g, md5Is) ==> Delivered(a, g, md5Is))
  {
    if d.handle.pos < |d.temp| {
      HashPassKeepsSession(d, g, env, md5Is);
    } else {
      SettlingKeepsSession(d, g, env, md5Is);
    }
  }

  lemma HashPassKeepsSession(d: Device, g: Goal, env: Env, md5Is: Md5Is)
    requires d.phase == Check && Session(d, g, md5Is) && ResultHonest(d, g, md5Is) && d.handle.pos < |d.temp|
    ensures var a := CheckPass(d, env, md5Is);
            && Session(a, g, md5Is) && ResultHonest(a, g, md5Is) && a.phase in {Check, Cleanup}
            && (WrongFilePieceNumber in a.errs ==> WrongFilePieceNumber in d.errs)
            && (Delivered(d, g, md5Is) ==> Delivered(a, g, md5Is))
  {
    hide Firmware, Md5Local;
    var pos, end := d.handle.pos, Min(d.handle.pos + READ_BUFFER_SIZE, |d.temp|);
    assert g.data[..pos] + g.data[pos..end] == g.data[..end];
  }

  lemma SettlingKeepsSession(d: Device, g: Goal, env: Env, md5Is: Md5Is)
    requires d.phase == Check && Session(d, g, md5Is) && ResultHonest(d, g, md5Is) && d.handle.pos >= |d.temp|
    ensures var a := CheckPass(d, env, md5Is);
            && Session(a, g, md5Is) && ResultHonest(a, g, md5Is) && a.phase == Cleanup
            && (WrongFilePieceNumber in a.errs ==> WrongFilePieceNumber in d.errs)
            && (Delivered(d, g, md5Is) ==> Delivered(a, g, md5Is))
  {
    hide Firmware, Md5Local;
    assert g.data[..|g.data|] == g.data;
    assert g.files[g.name := g.data][g.name := g.data] == g.files[g.name := g.data];
  }

  lemma RestartKeepsSession(d: Device, g: Goal, md5Is: Md5Is)
    requires Session(d, g, md5Is)
    ensures Session(PowerUp(d), g, md5Is) && ResultHonest(PowerUp(d), g, md5Is) && PowerUp(d).phase != Storing
    ensures Delivered(d, g, md5Is) ==> Delivered(PowerUp(d), g, md5Is)
  {
  }

  // ---------------------------------------------------------------- whole sessions

  /** Anything that can happen to the device during one transfer. `Arrives` is any piece of the
      transfer, at any time, any number of times. */
  datatype Event = Arrives(number: nat, env: Env) | Task(env: Env) | Restarts

  function After(d: Device, g: Goal, e: Event, md5Is: Md5Is): Device {
    match e
    case Arrives(number, env) => MessageArrived(d, PieceMessage(g.data, number), env, md5Is).0
    case Task(env) => RunTask(d, env, md5Is).0
    case Restarts => PowerUp(d)
  }

  function AfterAll(d: Device, g: Goal, events: seq<Event>, md5Is: Md5Is): Device
    decreases |events|
  {
    if events == [] then d else AfterAll(After(d, g, events[0], md5Is), g, events[1..], md5Is)
  }

  lemma ArrivalKeepsSession(d: Device, g: Goal, number: nat, env: Env, md5Is: Md5Is)
    requires Session(d, g, md5Is)
    ensures var (a, m) := MessageArrived(d, PieceMessage(g.data, number), env, md5Is);
            && Session(a, g, md5Is)
            && (ResultHonest(d, g, md5Is) ==> ResultHonest(a, g, md5Is))
            && (Delivered(d, g, md5Is) ==> Delivered(a, g, md5Is))
  {
    hide Session, ResultHonest, StoreBase64;
    var text := Base64.Encode(Slice(g.data, number));
    if number < TWO_32 {
      if d.phase == Storing && number == d.next {
        ExpectedPieceIsStored(d, g, env, md5Is);
      } else {
        OtherPieceIsRefused(d, number, text, env, md5Is);
        ErrorsDoNotMatter(d, StoreBase64(d, number, Some(text), env, md5Is).0.errs, g, md5Is);
      }
      ErrorsDoNotMatter(StoreBase64(d, number, Some(text), env, md5Is).0, {}, g, md5Is);
    }
  }

  lemma ErrorsDoNotMatter(d: Device, errs: set<DeviceError>, g: Goal, md5Is: Md5Is)
    ensures Session(d.(errs := errs), g, md5Is) <==> Session(d, g, md5Is)
    ensures ResultHonest(d.(errs := errs), g, md5Is) <==> ResultHonest(d, g, md5Is)
  {
  }

  lemma EventKeepsSession(d: Device, g: Goal, e: Event, md5Is: Md5Is)
    requires Session(d, g, md5Is)
    ensures Session(After(d, g, e, md5Is), g, md5Is)
  {
    hide Session, ResultHonest, MessageArrived, RunTask, PowerUp;
    match e
    case Arrives(number, env) => ArrivalKeepsSession(d, g, number, env, md5Is);
    case Task(env) => RunKeepsSession(d, g, env, md5Is);
    case Restarts => RestartKeepsSession(d, g, md5Is);
  }

  lemma {:induction false} EventsKeepSession(d: Device, g: Goal, events: seq<Event>, md5Is: Md5Is)
    requires Session(d, g, md5Is)
    ensures Session(AfterAll(d, g, events, md5Is), g, md5Is)
    decreases |events|
  {
    hide Session, After;
    if events != [] {
      EventKeepsSession(d, g, events[0], md5Is);
      EventsKeepSession(After(d, g, events[0], md5Is), g, events[1..], md5Is);
    }
  }

  /** After one successful `begin()`, whatever pieces of that transfer arrive in whatever order:
      while storing, the store is exactly the first `fileSize - remaining` bytes of the data; the
      temp file is never anything but a prefix of it; and the target is only ever replaced by
      the complete data, once its hash was confirmed. */
  lemma SessionIsSafe(d: Device, g: Goal, env: Env, events: seq<Event>, md5Is: Md5Is)
    requires |g.data| < TWO_32 && Untouched(d, g)
    requires Begin(d, |g.data|, Some(g.md5), Some(g.name), env).1
    ensures var a := AfterAll(Begin(d, |g.data|, Some(g.md5), Some(g.name), env).0, g, events, md5Is);
            && (a.phase == Storing ==>
                  && a.fileSize == |g.data| && a.remaining <= a.fileSize
                  && (if Firmware(g) then a.updater.Updating? && a.updater.image == g.data[..a.fileSize - a.remaining]
                      else a.temp == g.data[..a.fileSize - a.remaining]))
            && (!Firmware(g) ==> a.temp <= g.data)
            && (Untouched(a, g) || Delivered(a, g, md5Is))
  {
    BeginOpensSession(d, g, md5Is, env);
    var b := Begin(d, |g.data|, Some(g.md5), Some(g.name), env).0;
    EventsKeepSession(b, g, events, md5Is);
  }
}
