/** `lib/dfPlayer/src/dfPlayer.cpp`: the MP3 player's queue and the state machine that plays it. */
module DfPlayer {
  import opened Common
  import opened RingBuffer

  const MAX_TRACK: nat := 9999
  const MAX_VOLUME: nat := 30
  const QUEUE_SIZE: nat := 5
  const BOOT_TIME: nat := 1000
  const CMD_EXEC_TIME: nat := 120
  const PLAY_DELAY_TIME: nat := 400
  const PLAY_TIMEOUT_TIME: nat := 10_000
  const PLAY_START_TIME: nat := 500
  const PLAY_START_RETRIES: nat := 2
  const MODULE_RESTART_LIMIT: nat := 1
  const MODULE_RESTART_TIME: nat := 1000

  datatype Item = Item(track: nat, volume: nat, red: Byte, green: Byte, blue: Byte)
  datatype State = IDLE | TURN_ON | WAIT_FOR_BOOT | SET_VOLUME | WAIT_FOR_CMD | PLAY | WAIT_FOR_START | WAIT_FOR_PLAY
                 | RESTART_MODULE | CHECK_QUEUE | PLAYING_DELAY | TURN_OFF

  /** How a track ends: the module's end-of-play signal, the play timeout, or given up on and
      reported through the callback. `commands` counts its play commands. */
  datatype Outcome = Finished | TimedOut | Failed
  datatype Resolved = Resolved(item: Item, outcome: Outcome, commands: nat)

  /** What the player has told its surroundings: the module's power and volume, the LEDs' colour (none: the
      saved one), and when. A module without power forgets its volume. */
  datatype Module = Module(on: bool, volume: Option<nat>, colour: Option<(Byte, Byte, Byte)>,
                           onAt: int, offAt: int, volumeAt: int)

  /** A play command, the module it reached, and whether the module was restarted for this track. */
  datatype Sent = Sent(track: nat, at: int, mp3: Module, restarted: bool)

  /** `accepted` and `done` record the tracks taken by `play` and the tracks dealt with, `sent` the play
      commands; `commands` counts those of the current track. */
  datatype Player = Player(
    state: State, current: Item, retries: nat, restarts: nat, timer: int, ended: bool, queue: seq<Item>,
    accepted: seq<Item>, done: seq<Resolved>, commands: nat, mp3: Module, sent: seq<Sent>)

  // ---------------------------------------------------------------- the operations

  function Clamped(item: Item): Item {
    item.(track := if item.track > MAX_TRACK then MAX_TRACK else item.track,
          volume := if item.volume > MAX_VOLUME then MAX_VOLUME else item.volume)
  }

  /** `play`: a full queue takes nothing. */
  function AfterPlay(p: Player, item: Item): Player {
    if |p.queue| >= QUEUE_SIZE then p
    else p.(queue := p.queue + [Clamped(item)], accepted := p.accepted + [Clamped(item)])
  }

  function Resolve(p: Player, outcome: Outcome): Player {
    p.(state := CHECK_QUEUE, done := p.done + [Resolved(p.current, outcome, p.commands)])
  }

  /** What `pop` gives for an empty queue. */
  const BLANK := Item(0, 0, 0, 0, 0)

  /** The next track of the queue becomes the current one. */
  function Taken(p: Player, state: State): Player {
    p.(current := if p.queue == [] then BLANK else p.queue[0], queue := if p.queue == [] then [] else p.queue[1..],
       retries := 0, restarts := 0, commands := 0, state := state)
  }

  function PoweredUp(m: Module, now: int): Module { m.(on := true, onAt := now) }

  /** `powerDownModule`. */
  function PoweredDown(m: Module, now: int): Module { m.(on := false, volume := None, offAt := now) }

  /** An all-zero colour leaves the LEDs alone. */
  function VolumeSet(m: Module, item: Item, now: int): Module {
    m.(volume := Some(item.volume), volumeAt := now,
       colour := if item.red == item.green == item.blue == 0 then m.colour
                 else Some((item.red, item.green, item.blue)))
  }

  /** `nextStateWaitingForStart`. */
  function AfterWaiting(p: Player, now: int, busyLow: bool): Player {
    if p.ended then Resolve(p.(ended := false), Finished)
    else if busyLow then p.(timer := now, state := WAIT_FOR_PLAY)
    else if !HasElapsed(now, p.timer, PLAY_START_TIME) then p
    else if p.retries < PLAY_START_RETRIES then p.(retries := p.retries + 1, state := PLAY)
    else if p.restarts < MODULE_RESTART_LIMIT
        then p.(restarts := p.restarts + 1, retries := 0, timer := now, state := RESTART_MODULE,
                mp3 := PoweredDown(p.mp3, now))
    else Resolve(p, Failed)
  }

  /** `run`; `busyLow` is the level of the module's BUSY line. */
  function AfterRun(p: Player, now: int, busyLow: bool): Player {
    match p.state
    case IDLE => if p.queue == [] then p else Taken(p, TURN_ON)
    case TURN_ON => p.(timer := now, state := WAIT_FOR_BOOT, mp3 := PoweredUp(p.mp3, now))
    case WAIT_FOR_BOOT => if HasElapsed(now, p.timer, BOOT_TIME) then p.(state := SET_VOLUME) else p
    case SET_VOLUME => p.(timer := now, state := WAIT_FOR_CMD, mp3 := VolumeSet(p.mp3, p.current, now))
    case WAIT_FOR_CMD => if HasElapsed(now, p.timer, CMD_EXEC_TIME) then p.(state := PLAY) else p
    case PLAY =>
      p.(ended := false, timer := now, commands := p.commands + 1, state := WAIT_FOR_START,
         sent := p.sent + [Sent(p.current.track, now, p.mp3, p.restarts > 0)])
    case WAIT_FOR_START => AfterWaiting(p, now, busyLow)
    case RESTART_MODULE => if HasElapsed(now, p.timer, MODULE_RESTART_TIME) then p.(state := TURN_ON) else p
    case WAIT_FOR_PLAY =>
      if HasElapsed(now, p.timer, PLAY_TIMEOUT_TIME) then Resolve(p.(ended := false), TimedOut)
      else if p.ended then Resolve(p.(ended := false), Finished)
      else p
    case CHECK_QUEUE => if p.queue == [] then p.(state := TURN_OFF) else p.(timer := now, state := PLAYING_DELAY)
    case PLAYING_DELAY => if HasElapsed(now, p.timer, PLAY_DELAY_TIME) then Taken(p.(ended := false), SET_VOLUME) else p
    case TURN_OFF => p.(ended := false, state := IDLE, mp3 := PoweredDown(p.mp3, now).(colour := None))
  }

  // ---------------------------------------------------------------- in order, each once

  predicate InHand(state: State) { state !in {IDLE, CHECK_QUEUE, PLAYING_DELAY, TURN_OFF} }

  ghost function Items(done: seq<Resolved>): (items: seq<Item>)
    ensures |items| == |done|
  {
    seq(|done|, i requires 0 <= i < |done| => done[i].item)
  }

  /** What was accepted is what is done, then the track in hand, then the queue. */
  ghost predicate InOrder(p: Player) {
    p.accepted == Items(p.done) + (if InHand(p.state) then [p.current] else []) + p.queue
  }

  /** The commands sent for the current track are those of its tries: three before the module's
      restart and three after. */
  ghost predicate Tries(p: Player) {
    && p.retries <= PLAY_START_RETRIES && p.restarts <= MODULE_RESTART_LIMIT
    && (p.state in {WAIT_FOR_START, WAIT_FOR_PLAY} ==> p.commands == 3 * p.restarts + p.retries + 1)
    && (p.state in {TURN_ON, WAIT_FOR_BOOT, SET_VOLUME, WAIT_FOR_CMD, PLAY, RESTART_MODULE}
       ==> p.commands == 3 * p.restarts + p.retries)
  }

  ghost predicate DoneRight(done: seq<Resolved>) {
    forall i :: 0 <= i < |done| ==> 1 <= done[i].commands <= 6 && (done[i].outcome == Failed ==> done[i].commands == 6)
  }

  ghost predicate Inv(p: Player) {
    && |p.queue| <= QUEUE_SIZE && (p.state == PLAYING_DELAY ==> p.queue != [])
    && InOrder(p) && Tries(p) && DoneRight(p.done)
  }

  /** A call of `play`, a pass, or the end-of-play interrupt. */
  datatype Event = Play(item: Item) | Pass(now: int, busyLow: bool) | Interrupt

  function Next(p: Player, e: Event): Player {
    match e
    case Play(item) => AfterPlay(p, item)
    case Pass(now, busyLow) => AfterRun(p, now, busyLow)
    case Interrupt => p.(ended := true)
  }

  lemma PlayKeepsInv(p: Player, item: Item)
    requires Inv(p)
    ensures Inv(AfterPlay(p, item))
  {
    hide Clamped, DoneRight;
  }

  lemma ResolveKeepsInv(p: Player, outcome: Outcome)
    requires Inv(p) && p.state in {WAIT_FOR_START, WAIT_FOR_PLAY}
    requires outcome == Failed ==> p.retries == PLAY_START_RETRIES && p.restarts == MODULE_RESTART_LIMIT
    ensures Inv(Resolve(p, outcome))
  {
    var r := Resolved(p.current, outcome, p.commands);
    assert Items(p.done + [r]) == Items(p.done) + [p.current];
  }

  lemma TakenKeepsInv(p: Player, state: State)
    requires Inv(p) && p.state in {IDLE, PLAYING_DELAY} && p.queue != [] && state in {TURN_ON, SET_VOLUME}
    ensures Inv(Taken(p, state))
  {
    hide DoneRight, Items;
    assert [p.queue[0]] + p.queue[1..] == p.queue;
  }

  lemma RunKeepsInv(p: Player, now: int, busyLow: bool)
    requires Inv(p)
    ensures Inv(AfterRun(p, now, busyLow))
  {
    hide HasElapsed, DoneRight, Items, Resolve, Taken;
    match p.state
    case IDLE => if p.queue != [] { TakenKeepsInv(p, TURN_ON); }
    case PLAYING_DELAY => TakenKeepsInv(p.(ended := false), SET_VOLUME);
    case WAIT_FOR_START =>
      ResolveKeepsInv(p.(ended := false), Finished);
      if p.retries == PLAY_START_RETRIES && p.restarts == MODULE_RESTART_LIMIT { ResolveKeepsInv(p, Failed); }
    case WAIT_FOR_PLAY =>
      ResolveKeepsInv(p.(ended := false), Finished);
      ResolveKeepsInv(p.(ended := false), TimedOut);
    case _ =>
  }

  function Run(p: Player, events: seq<Event>): Player
    decreases |events|
  {
    if events == [] then p else Run(Next(p, events[0]), events[1..])
  }

  lemma {:induction false} EventsKeepInv(p: Player, events: seq<Event>)
    requires Inv(p)
    ensures Inv(Run(p, events))
    decreases |events|
  {
    hide Inv, Next;
    if events != [] {
      NextKeepsInv(p, events[0]);
      EventsKeepInv(Next(p, events[0]), events[1..]);
    }
  }

  lemma NextKeepsInv(p: Player, e: Event)
    requires Inv(p)
    ensures Inv(Next(p, e))
  {
    match e
    case Play(item) => PlayKeepsInv(p, item);
    case Pass(now, busyLow) => RunKeepsInv(p, now, busyLow);
    case Interrupt =>
  }

  const OFF := Module(false, None, None, 0, 0, 0)

  function PowerUp(current: Item): Player { Player(IDLE, current, 0, 0, 0, false, [], [], [], 0, OFF, []) }

  /** Over every run from power-up: tracks are dealt with in the order they were accepted, each once,
      each after one to six play commands, and one is reported as failed only after all six. */
  lemma TracksInOrder(current: Item, events: seq<Event>)
    ensures var p := Run(PowerUp(current), events);
            && Items(p.done) <= p.accepted && DoneRight(p.done)
            && p.accepted[|p.done|..] == (if InHand(p.state) then [p.current] else []) + p.queue
  {
    hide Run;
    var start := PowerUp(current);
    EventsKeepInv(start, events);
    assert InOrder(Run(start, events));
  }

  // ---------------------------------------------------------------- and all of them

  /** How long each waiting state waits. */
  function Patience(state: State): nat {
    match state
    case WAIT_FOR_BOOT => BOOT_TIME
    case WAIT_FOR_CMD => CMD_EXEC_TIME
    case WAIT_FOR_START => PLAY_START_TIME
    case WAIT_FOR_PLAY => PLAY_TIMEOUT_TIME
    case RESTART_MODULE => MODULE_RESTART_TIME
    case PLAYING_DELAY => PLAY_DELAY_TIME
    case _ => 0
  }

  /** A waiting state was not yet over on the last pass. */
  ghost predicate Calm(p: Player, last: int) {
    p.timer <= last && (Patience(p.state) > 0 ==> last - p.timer <= Patience(p.state))
  }

  /** What a state has left before its track is resolved, were the track to start at once. */
  ghost function Rank(state: State): nat {
    match state
    case WAIT_FOR_PLAY => 10
    case WAIT_FOR_START => 10_100
    case PLAY => 10_700
    case WAIT_FOR_CMD => 10_800
    case SET_VOLUME => 11_000
    case WAIT_FOR_BOOT => 11_100
    case TURN_ON => 12_200
    case RESTART_MODULE => 12_300
    case CHECK_QUEUE => 3
    case PLAYING_DELAY => 25_000
    case TURN_OFF => 1
    case IDLE => 0
  }

  /** The tries left and the tracks left. */
  ghost function Credit(p: Player): nat
    requires Tries(p)
  {
    (if InHand(p.state) then (MODULE_RESTART_LIMIT - p.restarts) * 8000 + (PLAY_START_RETRIES - p.retries) * 1500
        else 0)
    + 30_000 * (if p.state == PLAYING_DELAY && |p.queue| > 0 then |p.queue| - 1 else |p.queue|)
  }

  /** The most passes, one a millisecond, the player can still take to get through everything it has. */
  ghost function Left(p: Player, last: int): nat
    requires Tries(p) && Calm(p, last)
  {
    Rank(p.state) + Credit(p) + (if Patience(p.state) > 0 then Patience(p.state) - (last - p.timer) else 0)
  }

  /** One round: perhaps an interrupt, then a pass. */
  datatype Round = Round(now: int, busyLow: bool, interrupt: bool)

  function AfterRound(p: Player, r: Round): Player {
    AfterRun(if r.interrupt then p.(ended := true) else p, r.now, r.busyLow)
  }

  /** The clock does not run backwards, or most of the way round, between passes. */
  predicate Paced(last: int, now: int) { 0 <= now - last <= 0x7FFF_FFFF }

  lemma WaitIsOver(p: Player, last: int, now: int)
    requires Calm(p, last) && Paced(last, now) && Patience(p.state) > 0
    ensures HasElapsed(now, p.timer, Patience(p.state)) <==> now - p.timer > Patience(p.state)
  {}

  lemma WaitingRoundMakesProgress(p: Player, last: int, now: int, busyLow: bool)
    requires Inv(p) && Calm(p, last) && Paced(last, now) && p.state == WAIT_FOR_START
    ensures var q := AfterRun(p, now, busyLow);
            Tries(q) && Calm(q, now) && (Left(q, now) < Left(p, last) || (now == last && q == p))
  {
    hide HasElapsed, InOrder, DoneRight;
    WaitIsOver(p, last, now);
    RunKeepsInv(p, now, busyLow);
  }

  /** Every pass brings the end nearer, unless the player is idle with nothing to play, or waits and the
      clock still shows the millisecond of the last pass. */
  lemma PassMakesProgress(p: Player, last: int, now: int, busyLow: bool)
    requires Inv(p) && Calm(p, last) && Paced(last, now)
    ensures var q := AfterRun(p, now, busyLow);
            && Tries(q) && Calm(q, now)
            && (Left(q, now) < Left(p, last) || (q == p && ((p.state == IDLE && p.queue == []) || now == last)))
  {
    hide HasElapsed, InOrder, DoneRight, AfterWaiting;
    if Patience(p.state) > 0 { WaitIsOver(p, last, now); }
    if p.state == WAIT_FOR_START { WaitingRoundMakesProgress(p, last, now, busyLow); }
    RunKeepsInv(p, now, busyLow);
  }

  ghost predicate AllPaced(last: int, rounds: seq<Round>)
    decreases |rounds|
  {
    rounds == [] || (Paced(last, rounds[0].now) && AllPaced(rounds[0].now, rounds[1..]))
  }

  function Rounds(p: Player, rounds: seq<Round>): Player
    decreases |rounds|
  {
    if rounds == [] then p else Rounds(AfterRound(p, rounds[0]), rounds[1..])
  }

  lemma RoundKeepsInv(p: Player, r: Round)
    requires Inv(p)
    ensures Inv(AfterRound(p, r)) && AfterRound(p, r).accepted == p.accepted
  {
    hide HasElapsed, InOrder, DoneRight;
    RunKeepsInv(if r.interrupt then p.(ended := true) else p, r.now, r.busyLow) by { InterruptKeepsInv(p); }
  }

  lemma InterruptKeepsInv(p: Player)
    requires Inv(p)
    ensures Inv(p.(ended := true))
  {
    hide DoneRight, Items;
  }

  /** The rounds that are not within the same millisecond as the one before. */
  ghost function Ticks(last: int, rounds: seq<Round>): nat
    decreases |rounds|
  {
    if rounds == [] then 0 else (if rounds[0].now > last then 1 else 0) + Ticks(rounds[0].now, rounds[1..])
  }

  /** Whatever the module does: left alone for as many rounds as the measure says, not counting those
      within the same millisecond as another, the player is idle and every accepted track has been
      dealt with, in order. */
  lemma {:induction false} EveryTrackIsResolved(p: Player, last: int, rounds: seq<Round>)
    requires Inv(p) && Calm(p, last) && AllPaced(last, rounds) && Ticks(last, rounds) >= Left(p, last)
    ensures var q := Rounds(p, rounds); q.state == IDLE && q.queue == [] && Items(q.done) == p.accepted
    decreases |rounds|
  {
    hide Inv, AfterRun;
    InvParts(p);
    if rounds == [] {
      assert Left(p, last) == 0;
    } else {
      var r := rounds[0];
      var i := if r.interrupt then p.(ended := true) else p;
      InterruptKeepsInv(p);
      InvParts(i);
      PassMakesProgress(i, last, r.now, r.busyLow);
      RoundKeepsInv(p, r);
      var q := AfterRound(p, r);
      assert Left(i, last) == Left(p, last);
      assert Left(q, r.now) < Left(p, last) || (q == i && (Left(q, r.now) == 0 || r.now == last));
      EveryTrackIsResolved(q, r.now, rounds[1..]);
    }
  }

  lemma InvParts(p: Player)
    requires Inv(p)
    ensures Tries(p) && |p.queue| <= QUEUE_SIZE && (p.state == PLAYING_DELAY ==> p.queue != [])
    ensures p.state == IDLE && p.queue == [] ==> Items(p.done) == p.accepted
  {}

  /** The measure is never large: a full queue takes at most this many rounds. */
  lemma LeftIsBounded(p: Player, last: int)
    requires Inv(p) && Calm(p, last)
    ensures Left(p, last) <= 30_000 * (|p.queue| + 1)
  {
    hide InOrder, DoneRight;
  }

  // ---------------------------------------------------------------- the object

  class DFPlayer {
    const playingQueue: CircularBuffer<Item>
    var playingState: State
    var currentItem: Item
    var playRetries: nat
    var moduleRestarts: nat
    var eventTimer: int
    var enablePlay: bool
    ghost var accepted: seq<Item>
    ghost var done: seq<Resolved>
    ghost var commands: nat
    ghost var mp3: Module
    ghost var sent: seq<Sent>

    ghost predicate Valid() reads this, playingQueue, playingQueue.buffer {
      playingQueue.Valid() && playingQueue.buffer.Length == QUEUE_SIZE && playingQueue.blank == BLANK
    }

    ghost function View(): Player
      requires Valid()
      reads this, playingQueue, playingQueue.buffer
    {
      Player(playingState, currentItem, playRetries, moduleRestarts, eventTimer, enablePlay, playingQueue.Contents(),
          accepted, done, commands, mp3, sent)
    }

    constructor ()
      ensures Valid() && View() == PowerUp(BLANK) && Inv(View()) && fresh(playingQueue) && fresh(playingQueue.buffer)
    {
      playingQueue := new CircularBuffer(QUEUE_SIZE, BLANK);
      playingState, currentItem, playRetries, moduleRestarts, eventTimer, enablePlay := IDLE, BLANK, 0, 0, 0, false;
      accepted, done, commands, mp3, sent := [], [], 0, OFF, [];
    }

    method Play(item: Item)
      requires Valid()
      modifies this, playingQueue, playingQueue.buffer
      ensures Valid() && View() == AfterPlay(old(View()), item)
    {
      var track, volume := item.track, item.volume;
      if track > MAX_TRACK { track := MAX_TRACK; }
      if volume > MAX_VOLUME { volume := MAX_VOLUME; }
      if !playingQueue.IsFull() {
        var taken := item.(track := track, volume := volume);
        playingQueue.Put(taken);
        accepted := accepted + [taken];
      }
    }

    ghost method Note(outcome: Outcome)
      modifies this`done
      ensures done == old(done) + [Resolved(currentItem, outcome, commands)]
    {
      done := done + [Resolved(currentItem, outcome, commands)];
    }

    method NextStateWaitingForStart(now: int, busyLow: bool) returns (next: State)
      requires Valid() && playingState == WAIT_FOR_START
      modifies this`enablePlay, this`eventTimer, this`playRetries, this`moduleRestarts, this`done, this`mp3
      ensures Valid() && View().(state := next) == AfterWaiting(old(View()), now, busyLow)
    {
      hide HasElapsed;
      if enablePlay {
        enablePlay := false;
        Note(Finished);
        return CHECK_QUEUE;
      }
      if busyLow {
        eventTimer := now;
        return WAIT_FOR_PLAY;
      }
      if !HasElapsed(now, eventTimer, PLAY_START_TIME) { return WAIT_FOR_START; }
      if playRetries < PLAY_START_RETRIES {
        playRetries := playRetries + 1;
        return PLAY;
      }
      if moduleRestarts < MODULE_RESTART_LIMIT {
        moduleRestarts := moduleRestarts + 1;
        playRetries := 0;
        mp3 := PoweredDown(mp3, now);
        eventTimer := now;
        return RESTART_MODULE;
      }
      Note(Failed);
      return CHECK_QUEUE;
    }

    method Take()
      requires Valid()
      modifies this, playingQueue
      ensures Valid() && View() == Taken(old(View()), SET_VOLUME)
    {
      currentItem := playingQueue.Pop();
      playRetries, moduleRestarts, commands := 0, 0, 0;
      playingState := SET_VOLUME;
    }

    /** The state WAIT_FOR_PLAY of `run`. */
    method WaitForPlay(now: int)
      requires Valid() && playingState == WAIT_FOR_PLAY
      modifies this`enablePlay, this`playingState, this`done
      ensures Valid() && View() == AfterRun(old(View()), now, true)
    {
      hide HasElapsed;
      var over := HasElapsed(now, eventTimer, PLAY_TIMEOUT_TIME);
      if over || enablePlay { Note(if over then TimedOut else Finished); }
      if enablePlay {
        enablePlay := false;
        playingState := CHECK_QUEUE;
      }
      if over { playingState := CHECK_QUEUE; }
    }

    /** The states of `run` that look at the queue. */
    method RunQueue(now: int)
      requires Valid() && playingState in {IDLE, CHECK_QUEUE, PLAYING_DELAY}
      modifies this, playingQueue
      ensures Valid() && View() == AfterRun(old(View()), now, false)
    {
      hide HasElapsed;
      match playingState {
        case IDLE =>
          if !playingQueue.IsEmpty() {
            Take();
            playingState := TURN_ON;
          }
        case CHECK_QUEUE =>
          if playingQueue.IsEmpty() {
            playingState := TURN_OFF;
          } else {
            eventTimer := now;
            playingState := PLAYING_DELAY;
          }
        case PLAYING_DELAY =>
          if HasElapsed(now, eventTimer, PLAY_DELAY_TIME) {
            enablePlay := false;
            Take();
          }
      }
    }

    method Run(now: int, busyLow: bool)
      requires Valid()
      modifies this, playingQueue
      ensures Valid() && View() == AfterRun(old(View()), now, busyLow)
    {
      hide HasElapsed, AfterWaiting, VolumeSet, PoweredUp, PoweredDown;
      match playingState {
        case IDLE => RunQueue(now);
        case TURN_ON =>
          mp3 := PoweredUp(mp3, now);
          eventTimer := now;
          playingState := WAIT_FOR_BOOT;
        case WAIT_FOR_BOOT =>
          if HasElapsed(now, eventTimer, BOOT_TIME) { playingState := SET_VOLUME; }
        case SET_VOLUME =>
          mp3 := VolumeSet(mp3, currentItem, now);
          eventTimer := now;
          playingState := WAIT_FOR_CMD;
        case WAIT_FOR_CMD =>
          if HasElapsed(now, eventTimer, CMD_EXEC_TIME) { playingState := State.PLAY; }
        case PLAY =>
          enablePlay := false;
          commands := commands + 1;
          sent := sent + [Sent(currentItem.track, now, mp3, moduleRestarts > 0)];
          eventTimer := now;
          playingState := WAIT_FOR_START;
        case WAIT_FOR_START =>
          var next := NextStateWaitingForStart(now, busyLow);
          playingState := next;
        case RESTART_MODULE =>
          if HasElapsed(now, eventTimer, MODULE_RESTART_TIME) { playingState := TURN_ON; }
        case WAIT_FOR_PLAY => WaitForPlay(now);
        case CHECK_QUEUE => RunQueue(now);
        case PLAYING_DELAY => RunQueue(now);
        case TURN_OFF =>
          mp3 := PoweredDown(mp3, now).(colour := None);
          enablePlay := false;
          playingState := IDLE;
      }
    }
  }
}
