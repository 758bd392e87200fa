/** The messages of the MQTT file transfer and its sending side, `_BaseTransfer` in
    `ota/otaUpdate.py`. */
module TransferSender {
  import opened Common
  import Base64

  // ---------------------------------------------------------------- messages

  /** One bit of the device's error mask (`DataTransferError`). */
  datatype DeviceError =
    | FileSizeZero | FileMd5Nullptr | FileMd5Invalid | FileNameNullptr | FileNameInvalid | FileNameNotAllowed
    | NotEnoughStorage | BeginNotCalled | WrongFilePieceNumber | FileAlreadyStored | FileDataNullptr
    | B64FileDataSizeError | FilePieceSizeOverflow | FilePieceSizeError | B64DecodedSizeError
    | TempFileOpeningError | TempFileWritingError | ReceivedFileSizeError | FileMd5Error | TempFileRenamingError
    | FwUpgradeBeginFailed | FwUpgradeSetMd5Failed | FwUpgradeWriteFailed | FwUpgradeEndFailed
    | ReceivedDataOverrun | TempFileReadingError | FileInUse

  /** A device answer: `type` and `err` of the JSON message. The mask is the set of its bits;
      `Untyped` is a message without a `type` field. */
  datatype Response = Response(ack: bool, err: set<DeviceError>) | Untyped

  datatype Request =
    | Start(size: nat, md5: string, name: string, binId: Option<string>)
    | Piece(number: nat, text: seq<Byte>)

  // ---------------------------------------------------------------- sender state

  const PIECE_SIZE: nat := 100
  const TIMEOUT_MS: nat := 25_000
  const MAX_PIECE_RETRIES: nat := 3

  datatype State = Idle | WaitStartAck | SendingFw | WaitPieceAck | WaitCheckAck | Done | Error

  datatype LastPiece = LastPiece(number: nat, offset: nat, length: nat)

  datatype Sender = Sender(
    state: State,
    pieceNumber: nat,
    remaining: nat,
    timer: int,
    last: Option<LastPiece>,
    retries: nat,
    resent: Option<nat>)

  /** A freshly built `_BaseTransfer`. */
  const FRESH := Sender(Idle, 0, 0, 0, None, 0, None)

  /** After `_send_start_message`. */
  function Started(s: Sender, data: seq<Byte>, now: int): Sender {
    s.(state := WaitStartAck, remaining := |data|, timer := now, resent := None)
  }

  predicate Over(s: Sender) { s.state == Done || s.state == Error }

  // ---------------------------------------------------------------- transitions

  function FinishSending(s: Sender, now: int): Sender {
    s.(state := WaitCheckAck, timer := now)
  }

  function AdvanceAfterPiece(s: Sender, now: int): Sender {
    var t := s.(retries := 0);
    if t.remaining > 0 then t.(state := SendingFw) else FinishSending(t, now)
  }

  /** A "wrong piece number" refusal while a repeat is still waiting for its answer. */
  predicate AnswersARepeat(s: Sender, m: Response) {
    m.Response? && !m.ack && s.resent.Some? && m.err == {WrongFilePieceNumber}
  }

  predicate ConfirmsThePieceInFlight(s: Sender, m: Response) {
    AnswersARepeat(s, m) && s.state == WaitPieceAck && s.last.Some? && s.last.value.number == s.resent.value
  }

  function ProcessResponse(s: Sender, m: Response, now: int): Sender {
    if m.Untyped? then s
    else if s.state == WaitStartAck && m.ack then s.(state := SendingFw)
    else if s.state == WaitPieceAck && m.ack then AdvanceAfterPiece(s, now)
    else if ConfirmsThePieceInFlight(s, m) then AdvanceAfterPiece(s.(resent := None), now)
    else if s.state == WaitCheckAck && m.ack then s.(state := Done)
    else if AnswersARepeat(s, m) then s.(resent := None)
    else s.(state := Error)
  }

  function Drain(s: Sender, pending: seq<Response>, now: int): Sender
    decreases |pending|
  {
    if pending == [] then s else Drain(ProcessResponse(s, pending[0], now), pending[1..], now)
  }

  function PieceText(data: seq<Byte>, p: LastPiece): seq<Byte>
    requires p.offset <= |data|
  {
    Base64.Encode(data[p.offset..Min(p.offset + p.length, |data|)])
  }

  function PublishPiece(s: Sender, now: int): Sender {
    s.(state := WaitPieceAck, timer := now)
  }

  /** The piece `_send_piece` is about to put on the wire. */
  function NextPiece(s: Sender, data: seq<Byte>): LastPiece
    requires s.remaining <= |data|
  {
    LastPiece(s.pieceNumber, |data| - s.remaining, Min(s.remaining, PIECE_SIZE))
  }

  function SendPiece(s: Sender, data: seq<Byte>, now: int): Sender
    requires s.remaining <= |data|
  {
    var resent := if s.resent.Some? && s.pieceNumber > s.resent.value + 1 then None else s.resent;
    var p := NextPiece(s, data);
    PublishPiece(s.(resent := resent, last := Some(p), retries := 0,
                    pieceNumber := s.pieceNumber + 1, remaining := s.remaining - p.length), now)
  }

  predicate TimedOut(s: Sender, now: int) {
    s.state in {WaitStartAck, WaitPieceAck, WaitCheckAck} && now - s.timer > TIMEOUT_MS
  }

  /** The timeout that repeats the piece in flight instead of giving up. */
  predicate Resends(s: Sender, now: int) {
    TimedOut(s, now) && s.state == WaitPieceAck && s.retries < MAX_PIECE_RETRIES && s.last.Some?
  }

  function Resend(s: Sender, now: int): Sender
    requires s.last.Some?
  {
    PublishPiece(s.(retries := s.retries + 1, resent := Some(s.last.value.number)), now)
  }

  /** The part of `_process_state` behind the drain: the new state, and what is published. */
  function Act(s: Sender, data: seq<Byte>, now: int): (Sender, seq<Request>)
    requires SliceValid(s, data)
  {
    if s.state == SendingFw then
      if s.remaining > 0 then
        var p := NextPiece(s, data);
        (SendPiece(s, data, now), [Piece(p.number, PieceText(data, p))])
      else (FinishSending(s, now), [])
    else if Resends(s, now) then
      (Resend(s, now), [Piece(s.last.value.number, PieceText(data, s.last.value))])
    else if TimedOut(s, now) then (s.(state := Error), [])
    else (s, [])
  }

  predicate SliceValid(s: Sender, data: seq<Byte>) {
    s.remaining <= |data| && (s.last.Some? ==> s.last.value.offset <= |data|)
  }

  lemma {:induction false} DrainKeepsSlices(s: Sender, pending: seq<Response>, now: int)
    ensures var t := Drain(s, pending, now);
            t.remaining == s.remaining && t.last == s.last && t.pieceNumber == s.pieceNumber
    decreases |pending|
  {
    if pending != [] { DrainKeepsSlices(ProcessResponse(s, pending[0], now), pending[1..], now); }
  }

  function ProcessState(s: Sender, data: seq<Byte>, pending: seq<Response>, now: int): (Sender, seq<Request>)
    requires SliceValid(s, data)
  {
    DrainKeepsSlices(s, pending, now);
    Act(Drain(s, pending, now), data, now)
  }

  // ---------------------------------------------------------------- the object

  /** `_BaseTransfer`. `published` is what it has handed to the MQTT client, in order. */
  class BaseTransfer {
    const data: seq<Byte>
    const startMessage: Request
    var state: State
    var pieceNumber: nat
    var remainingBytes: nat
    var timerStart: int
    var lastPiece: Option<LastPiece>
    var pieceRetries: nat
    var resentPiece: Option<nat>
    var pendingMessages: seq<Response>
    var published: seq<Request>

    ghost function View(): Sender
      reads this
    {
      Sender(state, pieceNumber, remainingBytes, timerStart, lastPiece, pieceRetries, resentPiece)
    }

    ghost predicate Valid()
      reads this
    {
      SliceValid(View(), data)
    }

    constructor (data: seq<Byte>, startMessage: Request)
      ensures Valid() && View() == FRESH && pendingMessages == [] && published == []
      ensures this.data == data && this.startMessage == startMessage
    {
      this.data, this.startMessage := data, startMessage;
      state, pieceNumber, remainingBytes, timerStart := Idle, 0, 0, 0;
      lastPiece, pieceRetries, resentPiece := None, 0, None;
      pendingMessages, published := [], [];
    }

    method SendStartMessage(now: int)
      requires Valid()
      modifies this
      ensures Valid() && View() == Started(old(View()), data, now)
      ensures published == old(published) + [startMessage] && pendingMessages == old(pendingMessages)
    {
      published := published + [startMessage];
      state := WaitStartAck;
      remainingBytes := |data|;
      timerStart := now;
      resentPiece := None;
    }

    /** `_on_message`; `None` is a payload that is not JSON. */
    method OnMessage(message: Option<Response>)
      modifies this
      ensures message.Some? ==> View() == old(View()) && pendingMessages == old(pendingMessages) + [message.value]
      ensures message.None? ==> View() == old(View()).(state := Error) && pendingMessages == old(pendingMessages)
      ensures published == old(published)
    {
      if message.Some? {
        pendingMessages := pendingMessages + [message.value];
      } else {
        state := Error;
      }
    }

    method FinishSendingPieces(now: int)
      modifies this
      ensures View() == FinishSending(old(View()), now)
      ensures published == old(published) && pendingMessages == old(pendingMessages)
    {
      state := WaitCheckAck;
      timerStart := now;
    }

    method Advance(now: int)
      modifies this
      ensures View() == AdvanceAfterPiece(old(View()), now)
      ensures published == old(published) && pendingMessages == old(pendingMessages)
    {
      pieceRetries := 0;
      if remainingBytes > 0 {
        state := SendingFw;
      } else {
        FinishSendingPieces(now);
      }
    }

    method HandleResponse(message: Response, now: int)
      modifies this
      ensures View() == ProcessResponse(old(View()), message, now)
      ensures published == old(published) && pendingMessages == old(pendingMessages)
    {
      if message.Untyped? { return; }
      var answersARepeat := !message.ack && resentPiece.Some? && message.err == {WrongFilePieceNumber};
      var confirms := answersARepeat && state == WaitPieceAck && lastPiece.Some?
                      && lastPiece.value.number == resentPiece.value;
      if state == WaitStartAck && message.ack {
        state := SendingFw;
      } else if state == WaitPieceAck && message.ack {
        Advance(now);
      } else if confirms {
        resentPiece := None;
        Advance(now);
      } else if state == WaitCheckAck && message.ack {
        state := Done;
      } else if answersARepeat {
        resentPiece := None;
      } else {
        state := Error;
      }
    }

    method Publish(p: LastPiece, now: int)
      requires p.offset <= |data|
      modifies this
      ensures View() == PublishPiece(old(View()), now)
      ensures published == old(published) + [Piece(p.number, PieceText(data, p))]
      ensures pendingMessages == old(pendingMessages)
    {
      published := published + [Piece(p.number, Base64.Encode(data[p.offset..Min(p.offset + p.length, |data|)]))];
      state := WaitPieceAck;
      timerStart := now;
    }

    method SendNextPiece(now: int)
      requires Valid()
      modifies this
      ensures Valid() && View() == SendPiece(old(View()), data, now)
      ensures var p := NextPiece(old(View()), data); published == old(published) + [Piece(p.number, PieceText(data, p))]
      ensures pendingMessages == old(pendingMessages)
    {
      if resentPiece.Some? && pieceNumber > resentPiece.value + 1 {
        resentPiece := None;
      }
      var offset := |data| - remainingBytes;
      var readSize := Min(remainingBytes, PIECE_SIZE);
      lastPiece := Some(LastPiece(pieceNumber, offset, readSize));
      pieceRetries := 0;
      Publish(lastPiece.value, now);
      pieceNumber := pieceNumber + 1;
      remainingBytes := remainingBytes - readSize;
    }

    /** `_process_state`: drain the queue, then act. */
    method Process(now: int)
      requires Valid()
      modifies this
      ensures Valid() && pendingMessages == []
      ensures View() == ProcessState(old(View()), data, old(pendingMessages), now).0
      ensures published == old(published) + ProcessState(old(View()), data, old(pendingMessages), now).1
    {
      ghost var target := Drain(View(), pendingMessages, now);
      DrainKeepsSlices(View(), pendingMessages, now);
      while pendingMessages != []
        invariant Drain(View(), pendingMessages, now) == target
        invariant published == old(published)
        decreases |pendingMessages|
      {
        var message := pendingMessages[0];
        pendingMessages := pendingMessages[1..];
        HandleResponse(message, now);
      }
      assert View() == target;
      if state == SendingFw {
        if remainingBytes > 0 {
          SendNextPiece(now);
        } else {
          FinishSendingPieces(now);
        }
      } else if state in {WaitStartAck, WaitPieceAck, WaitCheckAck} && now - timerStart > TIMEOUT_MS {
        if state == WaitPieceAck && pieceRetries < MAX_PIECE_RETRIES && lastPiece.Some? {
          pieceRetries := pieceRetries + 1;
          resentPiece := Some(lastPiece.value.number);
          Publish(lastPiece.value, now);
        } else {
          state := Error;
        }
      }
    }
  }
}
