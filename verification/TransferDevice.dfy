/** The receiving side of the MQTT file transfer: `DataTransfer` in
    `lib/dataTransfer/src/dataTransfer.cpp` and the `MqttCommon` glue around it in
    `lib/mqttCommon/src/mqttCommon.cpp`. */
module TransferDevice {
  import opened Common
  import opened TransferSender
  import Base64

  const OTA_FW := "espFirmware"
  const VALID_NAMES := {OTA_FW, "/config/mosq-ca.crt", "/config/server.json", "/canAlertFw.bin", "/config/tube.json"}
  const PIO_ENV := "env"                              // Build::getPioEnv()
  const INVALID_PIECE_NUMBER: nat := 0xFFFF_FFFF
  const MAX_FILE_PIECE_LENGTH: nat := 127
  const READ_BUFFER_SIZE: nat := 64
  const TRANSFER_TIMEOUT_MS: nat := 900_000

  predicate IsValidFileName(name: string) { name in VALID_NAMES }
  predicate IsOwnFirmwareFileName(name: string) { name == OTA_FW }

  /** Whether a hash string is the MD5 of some bytes (`MD5Builder` and the comparison). */
  type Md5Is = (seq<Byte>, string) -> bool

  datatype Phase = Quiet | Storing | Check | Cleanup

  /** `receivedFile`: closed, or the temp file open for writing or for reading. */
  datatype Handle = Closed | Writing | Reading(pos: nat)

  /** The platform's `Update` object. */
  datatype Updater = NoUpdate | Updating(size: nat, md5: string, image: seq<Byte>)

  datatype Device = Device(
    fileSize: nat,
    md5: string,
    next: nat,
    remaining: nat,
    name: string,
    isFw: bool,
    phase: Phase,
    errs: set<DeviceError>,
    timer: int,
    handle: Handle,
    hashed: seq<Byte>,                 // what md5.add() was given so far
    updater: Updater,
    checkDone: bool,                   // isFileCheckDone
    checkValid: bool,                  // isFileValid
    restartRequired: bool,
    temp: seq<Byte>,                   // contents of the temp file
    files: map<string, seq<Byte>>,     // every other file
    installed: Option<seq<Byte>>)      // the image Update.end() last accepted

  /** What the platform answers during one call: file system and updater outcomes, the clock. */
  datatype Env = Env(
    now: int, inUse: bool, updateBegins: bool, md5Set: bool, opens: bool, freeSpace: nat,
    written: nat, reopens: bool, updateEnds: bool, readOk: bool, renamed: bool)

  /** After a restart only what is stored survives. */
  function PowerUp(d: Device): Device {
    Device(0, "", INVALID_PIECE_NUMBER, 0, "", false, Quiet, {}, 0, Closed, [], NoUpdate, false, false, false,
           d.temp, d.files, d.installed)
  }

  function Fail(d: Device, e: DeviceError): (Device, bool) {
    (d.(errs := d.errs + {e}), false)
  }

  // ---------------------------------------------------------------- begin()

  /** Everything `begin()` refuses before it touches the transfer. */
  function BeginRefusal(size: nat, md5: Option<string>, name: Option<string>, env: Env): Option<DeviceError> {
    if size == 0 then Some(FileSizeZero)
    else if md5.None? then Some(FileMd5Nullptr)
    else if |md5.value| == 0 then Some(FileMd5Invalid)
    else if name.None? then Some(FileNameNullptr)
    else if |name.value| == 0 then Some(FileNameInvalid)
    else if !IsValidFileName(name.value) then Some(FileNameNotAllowed)
    else if env.inUse then Some(FileInUse)
    else None
  }

  /** `strncpy` into the 33-byte buffer. */
  function Md5Local(md5: string): string { if |md5| > 32 then md5[..32] else md5 }

  /** The fields `begin()` has overwritten by the time it opens anything; an image the previous
      transfer left open has been released. */
  function Reset(d: Device, size: nat, md5: string, name: string): Device {
    d.(fileSize := size, md5 := Md5Local(md5), next := 0, remaining := size, name := name, handle := Closed,
       updater := if d.isFw then NoUpdate else d.updater,
       isFw := IsOwnFirmwareFileName(name))
  }

  /** `begin()`. A refusal after `Reset` leaves `transferState` as it was. */
  function Begin(d: Device, size: nat, md5: Option<string>, name: Option<string>, env: Env): (Device, bool) {
    var refusal := BeginRefusal(size, md5, name, env);
    if refusal.Some? then Fail(d, refusal.value)
    else
      Open(Reset(d, size, md5.value, name.value), env)
  }

  function Open(r: Device, env: Env): (Device, bool) {
    if r.isFw then
      if !(env.updateBegins && r.updater.NoUpdate?) then Fail(r.(isFw := false), FwUpgradeBeginFailed)
      else if !env.md5Set then Fail(r.(isFw := false, updater := NoUpdate), FwUpgradeSetMd5Failed)
      else (r.(updater := Updating(r.fileSize, r.md5, []), timer := env.now, phase := Storing), true)
    else if !env.opens then Fail(r, TempFileOpeningError)
    else if env.freeSpace <= r.fileSize then Fail(r.(temp := [], handle := Closed), NotEnoughStorage)
    else (r.(temp := [], handle := Writing, timer := env.now, phase := Storing), true)
  }

  // ---------------------------------------------------------------- storeBase64()

  datatype Decoded = Bytes(bytes: seq<Byte>) | Refused(error: DeviceError)

  /** The size checks and the decoding of one piece, in the order `storeBase64` makes them. */
  function DecodePiece(text: seq<Byte>): (r: Decoded)
    ensures r.Bytes? ==> 0 < |r.bytes| <= 126
  {
    var b64Size := |text|;
    if b64Size == 0 || b64Size % 4 != 0 then Refused(B64FileDataSizeError)
    else
      var pieceSize := (b64Size * 3 / 4 + 1) % 65536;
      if pieceSize > MAX_FILE_PIECE_LENGTH then Refused(FilePieceSizeOverflow)
      else
        var pre := Base64.DecodedLength(text);
        if pre > pieceSize || pre == 0 then Refused(FilePieceSizeError)
        else
          var bytes := Base64.Decode(text, pieceSize);
          if pre != |bytes| then Refused(B64DecodedSizeError) else Bytes(bytes)
  }

  /** What a write of `bytes` stores: as much as the platform takes, nothing into a closed file. */
  function Stored(open: bool, bytes: seq<Byte>, written: nat): seq<Byte> {
    if open then bytes[..Min(written, |bytes|)] else []
  }

  function Write(d: Device, bytes: seq<Byte>, env: Env): (r: (Device, bool))
    ensures r.0.remaining == d.remaining && r.0.next == d.next
  {
    if d.isFw then
      var w := Stored(d.updater.Updating?, bytes, env.written);
      var u := if d.updater.Updating? then d.updater.(image := d.updater.image + w) else d.updater;
      if |w| != |bytes| then Fail(d.(updater := u, phase := Cleanup), FwUpgradeWriteFailed)
      else (d.(updater := u), true)
    else
      var w := Stored(d.handle.Writing?, bytes, env.written);
      if |w| != |bytes| then Fail(d.(temp := d.temp + w, phase := Cleanup), TempFileWritingError)
      else (d.(temp := d.temp + w), true)
  }

  /** `finalizeTransfer()`. `Update.end()` succeeds only on a complete image with the right MD5. */
  function Finalize(d: Device, env: Env, md5Is: Md5Is): (Device, bool) {
    if d.isFw then
      var complete := d.updater.Updating? && |d.updater.image| == d.updater.size
          && md5Is(d.updater.image, d.updater.md5);
      if !(env.updateEnds && complete) then
        Fail(d.(updater := NoUpdate, phase := Cleanup), FwUpgradeEndFailed)
      else
        (d.(installed := Some(d.updater.image), updater := NoUpdate, phase := Cleanup, checkDone := true,
            checkValid := true), true)
    else if !env.reopens then Fail(d.(handle := Closed, phase := Cleanup), TempFileOpeningError)
    else
      var r := d.(handle := Reading(0));
      if |r.temp| != r.fileSize then Fail(r.(phase := Cleanup), ReceivedFileSizeError)
      else (r.(hashed := [], phase := Check, timer := env.now), true)
  }

  function StoreBase64(d: Device, number: nat, text: Option<seq<Byte>>, env: Env, md5Is: Md5Is): (Device, bool) {
    if d.phase != Storing then Fail(d, BeginNotCalled)
    else if number != d.next then Fail(d, WrongFilePieceNumber)
    else if d.remaining == 0 then Fail(d, FileAlreadyStored)
    else if text.None? then Fail(d, FileDataNullptr)
    else
      match DecodePiece(text.value)
      case Refused(e) => Fail(d, e)
      case Bytes(bytes) =>
        if |bytes| > d.remaining then Fail(d.(phase := Cleanup), ReceivedDataOverrun)
        else StoreBytes(d, bytes, env, md5Is)
  }

  /** The rest of `storeBase64`, once the piece is decoded and known to fit. */
  function StoreBytes(d: Device, bytes: seq<Byte>, env: Env, md5Is: Md5Is): (Device, bool)
    requires |bytes| <= d.remaining
  {
    var (w, ok) := Write(d, bytes, env);
    if !ok then (w, false)
    else
      var t := w.(next := (w.next + 1) % TWO_32, remaining := w.remaining - |bytes|, timer := env.now);
      if t.remaining == 0 then Finalize(t, env, md5Is) else (t, true)
  }

  // ---------------------------------------------------------------- runValidityCheck()

  function CleanupTransfer(d: Device): Device {
    var c := d.(updater := if d.isFw && d.remaining > 0 then NoUpdate else d.updater,
                fileSize := 0, md5 := "", next := INVALID_PIECE_NUMBER, remaining := 0, isFw := false,
                handle := Closed, phase := Quiet);
    if c.errs != {} then c.(checkDone := true, checkValid := false) else c
  }

  /** One pass over an open temp file: hash the next 64 bytes, or settle the check. */
  function CheckPass(d: Device, env: Env, md5Is: Md5Is): Device {
    var pos := if d.handle.Reading? then d.handle.pos else |d.temp|;
    if pos < |d.temp| then
      var end := Min(pos + READ_BUFFER_SIZE, |d.temp|);
      if !env.readOk then Fail(d.(phase := Cleanup), TempFileReadingError).0
      else d.(hashed := d.hashed + d.temp[pos..end], handle := Reading(end))
    else
      var c := d.(phase := Cleanup);
      if !md5Is(d.hashed, d.md5) then Fail(c, FileMd5Error).0
      else
        var closed := c.(handle := Closed);
        if !env.renamed then Fail(closed, TempFileRenamingError).0
        else closed.(files := closed.files[d.name := d.temp], checkDone := true, checkValid := true)
  }

  function RunValidityCheck(d: Device, env: Env, md5Is: Md5Is): Device {
    var expired := d.phase in {Storing, Check} && HasElapsed(env.now, d.timer, TRANSFER_TIMEOUT_MS);
    var e := if expired then d.(phase := Cleanup) else d;
    match e.phase
    case Quiet => e.(timer := env.now)
    case Storing => e
    case Check => CheckPass(e, env, md5Is)
    case Cleanup => CleanupTransfer(e)
  }

  // ---------------------------------------------------------------- MqttCommon

  /** `getErrorCode()` clears the mask it returns, so every answer carries it away. */
  function Answer(d: Device, result: bool): (Device, Option<Response>) {
    (d.(errs := {}), Some(Response(result, d.errs)))
  }

  /** `messageArrivedCallback`. A size or number that is not a `uint32_t` is an unknown message. */
  function MessageArrived(d: Device, m: Request, env: Env, md5Is: Md5Is): (Device, Option<Response>) {
    match m
    case Start(size, md5, name, binId) =>
      if size >= TWO_32 then (d, None)
      else if IsOwnFirmwareFileName(name) && binId.None? then (d, Some(Response(false, {})))
      else if binId.Some? && binId.value != PIO_ENV then (d, Some(Response(false, {})))
      else
        var (b, ok) := Begin(d, size, Some(md5), Some(name), env);
        Answer(if ok then b.(restartRequired := b.isFw) else b, ok)
    case Piece(number, text) =>
      if number >= TWO_32 then (d, None)
      else
        var (b, ok) := StoreBase64(d, number, Some(text), env, md5Is);
        Answer(b, ok)
  }

  /** The first half of `MqttCommon::run()`: report a finished check. A valid firmware restarts
      the device. */
  function ReportCheck(d: Device): (Device, Option<Response>) {
    if !d.checkDone then (d, None)
    else
      var (r, m) := Answer(d.(checkDone := false), d.checkValid);
      (if d.checkValid && d.restartRequired then PowerUp(r) else r, m)
  }

  function RunTask(d: Device, env: Env, md5Is: Md5Is): (Device, Option<Response>) {
    var (r, m) := ReportCheck(d);
    (RunValidityCheck(r, env, md5Is), m)
  }

  // ---------------------------------------------------------------- pieces of up to 126 bytes

  /** Every standard encoding of 1 to 126 bytes passes all size checks and decodes to exactly
      those bytes. */
  lemma EncodedPieceDecodes(bytes: seq<Byte>)
    requires 0 < |bytes| <= 126
    ensures DecodePiece(Base64.Encode(bytes)) == Bytes(bytes)
  {
    hide Base64.Encode, Base64.Decode, Base64.DecodedLength, DecodePiece;
    var text, groups := Base64.Encode(bytes), (|bytes| + 2) / 3;
    PieceSizes(|bytes|);
    var pieceSize := groups * 3 + 1;
    Base64.RoundTrip(bytes, pieceSize);
    ChecksPass(text, bytes, pieceSize);
  }

  /** The same with the 127-byte buffer of `storeBase64`: every text the first two size checks let
      through fits it, as long as the 16-bit piece size does not wrap. MQTT packets end long before. */
  method DecodeIntoBuffer(text: seq<Byte>) returns (r: Decoded)
    requires |text| * 3 / 4 + 1 < 65536
    ensures r == DecodePiece(text)
  {
    hide Base64.DecodedLength, Base64.Decode;
    var b64Size := |text|;
    if b64Size == 0 || b64Size % 4 != 0 { return Refused(B64FileDataSizeError); }
    var pieceSize := (b64Size * 3 / 4 + 1) % 65536;
    if pieceSize > MAX_FILE_PIECE_LENGTH { return Refused(FilePieceSizeOverflow); }
    var decodedData := new Byte[MAX_FILE_PIECE_LENGTH](_ => 0);
    var pre := Base64.DecodedLength(text);
    if pre > pieceSize || pre == 0 { return Refused(FilePieceSizeError); }
    BufferHolds(b64Size);
    var post := Base64.DecodeBase64(text, decodedData, pieceSize);
    if pre != post { return Refused(B64DecodedSizeError); }
    return Bytes(decodedData[..post]);
  }

  lemma BufferHolds(n: nat)
    requires n % 4 == 0 && n * 3 / 4 + 1 <= MAX_FILE_PIECE_LENGTH
    ensures Base64.BlockBytes(n) < MAX_FILE_PIECE_LENGTH
  {}

  lemma ChecksPass(text: seq<Byte>, bytes: seq<Byte>, pieceSize: nat)
    requires |text| > 0 && |text| % 4 == 0 && |text| * 3 / 4 + 1 == pieceSize <= 127
    requires Base64.DecodedLength(text) == |bytes| && 0 < |bytes| < pieceSize
    requires Base64.Decode(text, pieceSize) == bytes
    ensures DecodePiece(text) == Bytes(bytes)
  {
    hide Base64.Decode, Base64.DecodedLength;
  }

  lemma PieceSizes(n: nat)
    requires 0 < n <= 126
    ensures var g := (n + 2) / 3;
            0 < g <= 42 && g * 4 % 4 == 0 && g * 4 * 3 / 4 == g * 3 && n <= g * 3
  {
  }

  // ---------------------------------------------------------------- the object

  /** Groups of fields of the object: the announced transfer, the open resources, the flags of
      the glue, and what survives a restart. */
  datatype Announced = Announced(fileSize: nat, md5: string, next: nat, remaining: nat, name: string, isFw: bool)
  datatype Resources = Resources(receivedFile: Handle, md5: seq<Byte>, update: Updater)
  datatype Flags = Flags(isFileCheckDone: bool, isFileValid: bool, isRestartRequired: bool)
  datatype Storage = Storage(temp: seq<Byte>, files: map<string, seq<Byte>>, installed: Option<seq<Byte>>)

  /** `MqttCommon` with its `DataTransfer`. */
  class MqttCommon {
    const md5Is: Md5Is
    var local: Announced
    var transferState: Phase
    var errState: set<DeviceError>
    var transferTimeoutTimer: int
    var res: Resources
    var flags: Flags
    var stored: Storage

    ghost function View(): Device
      reads this
    {
      Device(local.fileSize, local.md5, local.next, local.remaining, local.name, local.isFw,
             transferState, errState, transferTimeoutTimer, res.receivedFile, res.md5, res.update,
             flags.isFileCheckDone, flags.isFileValid, flags.isRestartRequired,
             stored.temp, stored.files, stored.installed)
    }

    constructor (md5Is: Md5Is, temp: seq<Byte>, files: map<string, seq<Byte>>, installed: Option<seq<Byte>>)
      ensures this.md5Is == md5Is
      ensures View() == PowerUp(View()) && stored == Storage(temp, files, installed)
    {
      this.md5Is := md5Is;
      local := Announced(0, "", INVALID_PIECE_NUMBER, 0, "", false);
      transferState, errState, transferTimeoutTimer := Quiet, {}, 0;
      res := Resources(Closed, [], NoUpdate);
      flags := Flags(false, false, false);
      stored := Storage(temp, files, installed);
    }

    method SetError(e: DeviceError)
      modifies this
      ensures View() == old(View()).(errs := old(errState) + {e})
    {
      errState := errState + {e};
    }

    method BeginTransfer(fileSize: nat, fileMd5: Option<string>, fileName: Option<string>, env: Env) returns (ok: bool)
      modifies this
      ensures (View(), ok) == Begin(old(View()), fileSize, fileMd5, fileName, env)
    {
      if fileSize == 0 { SetError(FileSizeZero); return false; }
      if fileMd5.None? { SetError(FileMd5Nullptr); return false; }
      if |fileMd5.value| == 0 { SetError(FileMd5Invalid); return false; }
      if fileName.None? { SetError(FileNameNullptr); return false; }
      if |fileName.value| == 0 { SetError(FileNameInvalid); return false; }
      if !IsValidFileName(fileName.value) { SetError(FileNameNotAllowed); return false; }
      if env.inUse { SetError(FileInUse); return false; }
      local := local.(fileSize := fileSize, md5 := Md5Local(fileMd5.value), next := 0, remaining := fileSize,
          name := fileName.value);
      res := res.(receivedFile := Closed);
      if local.isFw { res := res.(update := NoUpdate); }
      local := local.(isFw := IsOwnFirmwareFileName(local.name));
      ok := OpenTransfer(env);
    }

    /** The part of `begin()` that opens the updater or the temp file. */
    method OpenTransfer(env: Env) returns (ok: bool)
      modifies this
      ensures (View(), ok) == Open(old(View()), env)
    {
      if local.isFw {
        if !(env.updateBegins && res.update.NoUpdate?) {
          SetError(FwUpgradeBeginFailed);
          local := local.(isFw := false);
          return false;
        }
        res := res.(update := Updating(local.fileSize, local.md5, []));
        if !env.md5Set {
          SetError(FwUpgradeSetMd5Failed);
          res := res.(update := NoUpdate);
          local := local.(isFw := false);
          return false;
        }
      } else {
        if !env.opens { SetError(TempFileOpeningError); return false; }
        stored := stored.(temp := []);
        res := res.(receivedFile := Writing);
        if env.freeSpace <= local.fileSize {
          SetError(NotEnoughStorage);
          res := res.(receivedFile := Closed);
          return false;
        }
      }
      transferTimeoutTimer := env.now;
      transferState := Storing;
      return true;
    }

    method FinalizeTransfer(env: Env) returns (ok: bool)
      modifies this
      ensures (View(), ok) == Finalize(old(View()), env, md5Is)
    {
      if local.isFw {
        var complete := res.update.Updating? && |res.update.image| == res.update.size
            && md5Is(res.update.image, res.update.md5);
        if env.updateEnds && complete { stored := stored.(installed := Some(res.update.image)); }
        res := res.(update := NoUpdate);
        if !(env.updateEnds && complete) {
          SetError(FwUpgradeEndFailed);
          transferState := Cleanup;
          return false;
        }
        transferState := Cleanup;
        flags := flags.(isFileCheckDone := true, isFileValid := true);
      } else {
        res := res.(receivedFile := if env.reopens then Reading(0) else Closed);
        if res.receivedFile.Closed? {
          SetError(TempFileOpeningError);
          transferState := Cleanup;
          return false;
        }
        if |stored.temp| != local.fileSize {
          SetError(ReceivedFileSizeError);
          transferState := Cleanup;
          return false;
        }
        res := res.(md5 := []);
        transferState := Check;
        transferTimeoutTimer := env.now;
      }
      return true;
    }

    method Store(filePieceNumber: nat, fileData: Option<seq<Byte>>, env: Env) returns (ok: bool)
      modifies this
      ensures (View(), ok) == StoreBase64(old(View()), filePieceNumber, fileData, env, md5Is)
    {
      hide DecodePiece, StoreBytes;
      if transferState != Storing { SetError(BeginNotCalled); return false; }
      if filePieceNumber != local.next { SetError(WrongFilePieceNumber); return false; }
      if local.remaining == 0 { SetError(FileAlreadyStored); return false; }
      if fileData.None? { SetError(FileDataNullptr); return false; }
      var decoded := DecodePiece(fileData.value);
      if decoded.Refused? { SetError(decoded.error); return false; }
      if |decoded.bytes| > local.remaining {
        SetError(ReceivedDataOverrun);
        transferState := Cleanup;
        return false;
      }
      ok := StoreDecoded(decoded.bytes, env);
    }

    /** The second half of `storeBase64`, on bytes known to fit. */
    method StoreDecoded(bytes: seq<Byte>, env: Env) returns (ok: bool)
      requires |bytes| <= local.remaining
      modifies this
      ensures (View(), ok) == StoreBytes(old(View()), bytes, env, md5Is)
    {
      hide Write, Finalize;
      ok := WritePiece(bytes, env);
      if !ok { return; }
      local := local.(next := (local.next + 1) % TWO_32, remaining := local.remaining - |bytes|);
      transferTimeoutTimer := env.now;
      if local.remaining == 0 { ok := FinalizeTransfer(env); }
    }

    method WritePiece(bytes: seq<Byte>, env: Env) returns (ok: bool)
      modifies this
      ensures (View(), ok) == Write(old(View()), bytes, env)
    {
      if local.isFw {
        var w := Stored(res.update.Updating?, bytes, env.written);
        if res.update.Updating? { res := res.(update := res.update.(image := res.update.image + w)); }
        if |w| != |bytes| {
          SetError(FwUpgradeWriteFailed);
          transferState := Cleanup;
          return false;
        }
      } else {
        var w := Stored(res.receivedFile.Writing?, bytes, env.written);
        stored := stored.(temp := stored.temp + w);
        if |w| != |bytes| {
          SetError(TempFileWritingError);
          transferState := Cleanup;
          return false;
        }
      }
      return true;
    }

    method CleanUp()
      modifies this
      ensures View() == CleanupTransfer(old(View()))
    {
      if local.isFw && local.remaining > 0 { res := res.(update := NoUpdate); }
      local := local.(fileSize := 0, md5 := "", next := INVALID_PIECE_NUMBER, remaining := 0, isFw := false);
      res := res.(receivedFile := Closed);
      transferState := Quiet;
      if errState != {} { flags := flags.(isFileCheckDone := true, isFileValid := false); }
    }

    method ContinueCheck(env: Env)
      modifies this
      ensures View() == CheckPass(old(View()), env, md5Is)
    {
      var pos := if res.receivedFile.Reading? then res.receivedFile.pos else |stored.temp|;
      if pos < |stored.temp| {
        var end := Min(pos + READ_BUFFER_SIZE, |stored.temp|);
        if !env.readOk {
          SetError(TempFileReadingError);
          transferState := Cleanup;
          return;
        }
        res := res.(md5 := res.md5 + stored.temp[pos..end], receivedFile := Reading(end));
      } else {
        transferState := Cleanup;
        if !md5Is(res.md5, local.md5) { SetError(FileMd5Error); return; }
        res := res.(receivedFile := Closed);
        if !env.renamed { SetError(TempFileRenamingError); return; }
        stored := stored.(files := stored.files[local.name := stored.temp]);
        flags := flags.(isFileCheckDone := true, isFileValid := true);
      }
    }

    method RunCheck(env: Env)
      modifies this
      ensures View() == RunValidityCheck(old(View()), env, md5Is)
    {
      hide CheckPass, CleanupTransfer, HasElapsed;
      if transferState in {Storing, Check} && HasElapsed(env.now, transferTimeoutTimer, TRANSFER_TIMEOUT_MS) {
        transferState := Cleanup;
      }
      match transferState {
        case Quiet =>
          transferTimeoutTimer := env.now;
        case Storing =>
        case Check =>
          ContinueCheck(env);
        case Cleanup =>
          CleanUp();
      }
    }

    method GetErrorCode() returns (mask: set<DeviceError>)
      modifies this
      ensures mask == old(errState) && View() == old(View()).(errs := {})
    {
      mask := errState;
      errState := {};
    }

    method OnMessage(m: Request, env: Env) returns (answer: Option<Response>)
      modifies this
      ensures (View(), answer) == MessageArrived(old(View()), m, env, md5Is)
    {
      match m {
        case Start(size, md5, name, binId) =>
          if size >= TWO_32 { return None; }
          if IsOwnFirmwareFileName(name) && binId.None? { return Some(Response(false, {})); }
          if binId.Some? && binId.value != PIO_ENV { return Some(Response(false, {})); }
          var begun := BeginTransfer(size, Some(md5), Some(name), env);
          if begun { flags := flags.(isRestartRequired := local.isFw); }
          var beginErr := GetErrorCode();
          return Some(Response(begun, beginErr));
        case Piece(number, text) =>
          if number >= TWO_32 { return None; }
          var stored := Store(number, Some(text), env);
          var storeErr := GetErrorCode();
          return Some(Response(stored, storeErr));
      }
    }

    method RunCommon(env: Env) returns (answer: Option<Response>)
      modifies this
      ensures (View(), answer) == RunTask(old(View()), env, md5Is)
    {
      answer := None;
      if flags.isFileCheckDone {
        flags := flags.(isFileCheckDone := false);
        var errCode := GetErrorCode();
        answer := Some(Response(flags.isFileValid, errCode));
        if flags.isFileValid && flags.isRestartRequired { Restart(); }
      }
      RunCheck(env);
    }

    /** `reboot()`: the restart leaves only what is stored. */
    method Restart()
      modifies this
      ensures View() == PowerUp(old(View()))
    {
      local := Announced(0, "", INVALID_PIECE_NUMBER, 0, "", false);
      transferState, errState, transferTimeoutTimer := Quiet, {}, 0;
      res := Resources(Closed, [], NoUpdate);
      flags := Flags(false, false, false);
    }
  }
}
