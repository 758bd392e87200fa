/** Which error a refused message names: the first check, in a fixed order, that does not hold. */
module TransferErrors {
  import opened Common
  import opened TransferSender
  import opened TransferDevice
  import opened TransferAssumption
  import Base64

  /** One thing that is checked, and the bit that says it did not hold. */
  datatype Demand = Demand(error: DeviceError, holds: bool)

  function FirstFailure(checks: seq<Demand>): (e: Option<DeviceError>)
    ensures e.None? <==> forall i :: 0 <= i < |checks| ==> checks[i].holds
    ensures e.Some? ==> exists i :: 0 <= i < |checks| && !checks[i].holds && checks[i].error == e.value
                                    && forall j :: 0 <= j < i ==> checks[j].holds
  {
    if checks == [] then None else if !checks[0].holds then Some(checks[0].error) else FirstFailure(checks[1..])
  }

  /** What `begin` asks of the message, and of the platform for a firmware and for a file. */
  function MessageChecks(size: nat, md5: Option<string>, name: Option<string>, env: Env): seq<Demand> {
    [Demand(FileSizeZero, size > 0), Demand(FileMd5Nullptr, md5.Some?), Demand(FileMd5Invalid, md5 != Some("")),
     Demand(FileNameNullptr, name.Some?), Demand(FileNameInvalid, name != Some("")),
     Demand(FileNameNotAllowed, name.Some? && name.value in VALID_NAMES), Demand(FileInUse, !env.inUse)]
  }

  function FirmwareChecks(env: Env): seq<Demand> {
    [Demand(FwUpgradeBeginFailed, env.updateBegins), Demand(FwUpgradeSetMd5Failed, env.md5Set)]
  }

  function FileChecks(size: nat, env: Env): seq<Demand> {
    [Demand(TempFileOpeningError, env.opens), Demand(NotEnoughStorage, env.freeSpace > size)]
  }

  lemma FirstOfTwo(a: Demand, b: Demand)
    ensures FirstFailure([a, b]) == if !a.holds then Some(a.error) else if !b.holds then Some(b.error) else None
  {
    assert [a, b][1..] == [b] && [b][1..] == [];
    assert FirstFailure([b]) == if b.holds then None else Some(b.error);
  }

  lemma FirstOf(a: Demand, rest: seq<Demand>)
    ensures FirstFailure([a] + rest) == if !a.holds then Some(a.error) else FirstFailure(rest)
  {
    assert ([a] + rest)[1..] == rest;
  }

  lemma FirstOfSeven(a: Demand, b: Demand, c: Demand, d: Demand, e: Demand, f: Demand, g: Demand)
    ensures FirstFailure([a, b, c, d, e, f, g])
            == if !a.holds then Some(a.error) else if !b.holds then Some(b.error) else if !c.holds then Some(c.error)
               else if !d.holds then Some(d.error) else if !e.holds then Some(e.error) else FirstFailure([f, g])
  {
    hide FirstFailure;
    FirstOf(a, [b, c, d, e, f, g]);
    FirstOf(b, [c, d, e, f, g]);
    FirstOf(c, [d, e, f, g]);
    assert [a] + [b, c, d, e, f, g] == [a, b, c, d, e, f, g];
    assert [b] + [c, d, e, f, g] == [b, c, d, e, f, g];
    assert [c] + [d, e, f, g] == [c, d, e, f, g];
    FirstOfFour(d, e, f, g);
  }

  /** The message's own checks. */
  lemma RefusalIsFirst(size: nat, md5: Option<string>, name: Option<string>, env: Env)
    ensures BeginRefusal(size, md5, name, env) == FirstFailure(MessageChecks(size, md5, name, env))
  {
    hide FirstFailure, VALID_NAMES;
    var x := MessageChecks(size, md5, name, env);
    FirstOfSeven(x[0], x[1], x[2], x[3], x[4], x[5], x[6]);
    FirstOfTwo(x[5], x[6]);
    assert x == [x[0], x[1], x[2], x[3], x[4], x[5], x[6]];
    assert md5.Some? ==> (|md5.value| == 0 <==> md5 == Some(""));
    assert name.Some? ==> (|name.value| == 0 <==> name == Some(""));
  }

  lemma OpenNamesFirst(r: Device, env: Env)
    requires r.isFw ==> r.updater.NoUpdate?
    ensures var first := FirstFailure(if r.isFw then FirmwareChecks(env) else FileChecks(r.fileSize, env));
            && (Open(r, env).1 <==> first.None?)
            && Open(r, env).0.errs == (if first.Some? then r.errs + {first.value} else r.errs)
  {
    hide FirstFailure;
    var (a, b) := (FirmwareChecks(env), FileChecks(r.fileSize, env));
    FirstOfTwo(a[0], a[1]);
    FirstOfTwo(b[0], b[1]);
    assert a == [a[0], a[1]] && b == [b[0], b[1]];
  }

  /** A start that `begin` refuses names the first check that does not hold, those of the message before those
      of the platform; the ones of the message leave the device alone. */
  lemma RefusedStartNamesFirstFailure(d: Device, size: nat, md5: Option<string>, name: Option<string>, env: Env)
    requires Remembers(d)
    ensures var (b, ok) := Begin(d, size, md5, name, env);
            var message := FirstFailure(MessageChecks(size, md5, name, env));
            if message.Some? then !ok && b == d.(errs := d.errs + {message.value})
            else
              && md5.Some? && name.Some?
              && var platform := FirstFailure(if name.value == "espFirmware" then FirmwareChecks(env)
                                              else FileChecks(size, env));
                 (ok <==> platform.None?) && b.errs == (if platform.Some? then d.errs + {platform.value} else d.errs)
  {
    hide FirstFailure, Open, MessageChecks, Md5Local, BeginRefusal;
    RefusalIsFirst(size, md5, name, env);
    if BeginRefusal(size, md5, name, env).None? {
      NoRefusalMeans(size, md5, name, env);
      OpenNamesFirst(Reset(d, size, md5.value, name.value), env);
    }
  }

  lemma NoRefusalMeans(size: nat, md5: Option<string>, name: Option<string>, env: Env)
    requires BeginRefusal(size, md5, name, env).None?
    ensures md5.Some? && name.Some?
  {}

  // ---------------------------------------------------------------- pieces

  /** What `storeBase64` asks of a piece before it looks at its text. */
  function PlaceChecks(d: Device, number: nat, text: Option<seq<Byte>>): seq<Demand> {
    [Demand(BeginNotCalled, d.phase == Storing), Demand(WrongFilePieceNumber, number == d.next),
     Demand(FileAlreadyStored, d.remaining > 0), Demand(FileDataNullptr, text.Some?)]
  }

  lemma FirstOfFour(a: Demand, b: Demand, c: Demand, d: Demand)
    ensures FirstFailure([a, b, c, d])
            == if !a.holds then Some(a.error) else if !b.holds then Some(b.error) else FirstFailure([c, d])
  {
    assert [a, b, c, d][1..] == [b, c, d] && [b, c, d][1..] == [c, d];
  }

  /** A piece out of place is refused with the first thing wrong about it and changes nothing else. One in its
      place is refused alike if its text is no piece; if it says more than is left the transfer is over. */
  lemma RefusedPieceNamesFirstFailure(d: Device, number: nat, text: Option<seq<Byte>>, env: Env, md5Is: Md5Is)
    ensures var (b, ok) := StoreBase64(d, number, text, env, md5Is);
            var place := FirstFailure(PlaceChecks(d, number, text));
            if place.Some? then !ok && b == d.(errs := d.errs + {place.value})
            else
              && text.Some?
              && (DecodePiece(text.value).Refused? ==>
                   !ok && b == d.(errs := d.errs + {DecodePiece(text.value).error}))
              && (DecodePiece(text.value).Bytes? && |DecodePiece(text.value).bytes| > d.remaining ==>
                   !ok && b == d.(errs := d.errs + {ReceivedDataOverrun}, phase := Cleanup))
  {
    hide FirstFailure, DecodePiece, StoreBytes;
    var x := PlaceChecks(d, number, text);
    FirstOfFour(x[0], x[1], x[2], x[3]);
    FirstOfTwo(x[2], x[3]);
    assert x == [x[0], x[1], x[2], x[3]];
  }

  /** The texts that are no piece: not whole groups of four, too long for the buffer, or with a tail of padding
      that leaves nothing or does not decode. A wrong length is named before anything is decoded. */
  lemma RefusedTextIs(text: seq<Byte>)
    requires |text| < 65_536
    ensures |text| == 0 || |text| % 4 != 0 <==> DecodePiece(text) == Refused(B64FileDataSizeError)
    ensures |text| > 0 && |text| % 4 == 0 && |text| > 168 <==> DecodePiece(text) == Refused(FilePieceSizeOverflow)
    ensures DecodePiece(text).Bytes? ==> 0 < |text| <= 168 && |DecodePiece(text).bytes| == Base64.DecodedLength(text)
  {
    hide Base64.DecodedLength, Base64.Decode;
  }

  /** A write succeeds exactly if something is open and takes all of it; a short one ends the transfer, named after
      what it went to. */
  lemma ShortWriteIsNamed(d: Device, bytes: seq<Byte>, env: Env)
    requires bytes != []
    ensures var (w, ok) := Write(d, bytes, env);
            && (ok <==> env.written >= |bytes| && if d.isFw then d.updater.Updating? else d.handle == Writing)
            && (ok ==> w.phase == d.phase && w.errs == d.errs)
            && (!ok ==> w.phase == Cleanup
                        && w.errs == d.errs + {if d.isFw then FwUpgradeWriteFailed else TempFileWritingError})
  {}

  // ---------------------------------------------------------------- the end of a transfer

  /** What the end of a firmware and of a file asks, once the last byte is stored. */
  function EndDemands(d: Device, env: Env, md5Is: Md5Is): seq<Demand> {
    if d.isFw then
      [Demand(FwUpgradeEndFailed, env.updateEnds && d.updater.Updating? && |d.updater.image| == d.updater.size
                                  && md5Is(d.updater.image, d.updater.md5)),
       Demand(FwUpgradeEndFailed, true)]
    else [Demand(TempFileOpeningError, env.reopens), Demand(ReceivedFileSizeError, |d.temp| == d.fileSize)]
  }

  /** A transfer that cannot be ended names the reason, is over, and has put nothing in place; a firmware that
      can is installed and has its result, a file has its check before it. */
  lemma EndNamesFirstFailure(d: Device, env: Env, md5Is: Md5Is)
    ensures var (b, ok) := Finalize(d, env, md5Is);
            var first := FirstFailure(EndDemands(d, env, md5Is));
            && (ok <==> first.None?)
            && b.files == d.files && (!ok || !d.isFw ==> b.installed == d.installed)
            && if first.Some? then b.errs == d.errs + {first.value} && b.phase == Cleanup && b.checkDone == d.checkDone
               else if d.isFw then
                 b.installed == Some(d.updater.image) && b.checkDone && b.checkValid && b.errs == d.errs
               else b.phase == Phase.Check && b.handle == Reading(0) && b.hashed == [] && b.errs == d.errs
  {
    hide FirstFailure;
    var x := EndDemands(d, env, md5Is);
    FirstOfTwo(x[0], x[1]);
    assert x == [x[0], x[1]];
  }

  /** What a pass of the check asks: to read on, or at the end that the hash is right and the file can be
      renamed. */
  function PassDemands(d: Device, env: Env, md5Is: Md5Is): seq<Demand> {
    if d.handle.Reading? && d.handle.pos < |d.temp| then
      [Demand(TempFileReadingError, env.readOk), Demand(TempFileReadingError, true)]
    else [Demand(FileMd5Error, md5Is(d.hashed, d.md5)), Demand(TempFileRenamingError, env.renamed)]
  }

  /** A check that fails names the reason, is over and has put nothing in place; one that does not has either read
      on or put the file in place and has its result. */
  lemma CheckNamesFirstFailure(d: Device, env: Env, md5Is: Md5Is)
    requires d.phase == Phase.Check
    ensures var e := CheckPass(d, env, md5Is);
            var first := FirstFailure(PassDemands(d, env, md5Is));
            if first.Some? then
              && e.errs == d.errs + {first.value} && e.phase == Cleanup && e.checkDone == d.checkDone
              && e.files == d.files
            else if d.handle.Reading? && d.handle.pos < |d.temp| then
              && e.phase == Phase.Check && e.files == d.files && e.handle.Reading?
              && e.handle.pos == Min(d.handle.pos + 64, |d.temp|)
              && e.hashed == d.hashed + d.temp[d.handle.pos..e.handle.pos] && e.errs == d.errs
            else e.phase == Cleanup && e.files == d.files[d.name := d.temp] && e.checkDone && e.checkValid
  {
    hide FirstFailure;
    var x := PassDemands(d, env, md5Is);
    FirstOfTwo(x[0], x[1]);
    assert x == [x[0], x[1]];
  }

  /** A failure is reported with its reasons: one pass clears up and makes the mask a negative result, the next
      sends it. */
  lemma FailureIsReported(d: Device, first: Env, second: Env, md5Is: Md5Is)
    requires d.phase == Cleanup && d.errs != {} && !d.checkDone
    ensures var (e, m) := RunTask(d, first, md5Is);
            var (f, n) := RunTask(e, second, md5Is);
            m.None? && n == Some(Response(false, d.errs)) && f.files == d.files && f.phase == Quiet && f.errs == {}
  {
    hide CheckPass, HasElapsed;
  }
}
