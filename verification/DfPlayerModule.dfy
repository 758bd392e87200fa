/** What the MP3 module is told over a run of the player: which tracks, at which volume, and when. */
module DfPlayerModule {
  import opened Common
  import opened DfPlayer

  // ---------------------------------------------------------------- what is taken

  /** `play` takes an item exactly when there is room, with the colours asked for and the smaller of the
      value asked for and the largest; an ordinary item is taken as it is. */
  lemma PlayTakesTheRequest(p: Player, item: Item)
    ensures var q := AfterPlay(p, item);
            if |p.queue| >= 5 then q == p
            else && |q.queue| == |p.queue| + 1 && q.queue[..|p.queue|] == p.queue
                 && var taken := q.queue[|p.queue|];
                 && q == p.(queue := p.queue + [taken], accepted := p.accepted + [taken])
                 && taken.track == Min(item.track, 9999) && taken.volume == Min(item.volume, 30)
                 && taken.(track := item.track, volume := item.volume) == item
    ensures |p.queue| < 5 && item.track <= 9999 && item.volume <= 30
            ==> AfterPlay(p, item) == p.(queue := p.queue + [item], accepted := p.accepted + [item])
  {}

  // ---------------------------------------------------------------- which tracks, at which volume

  predicate Coloured(item: Item) { item.red != 0 || item.green != 0 || item.blue != 0 }

  /** The module has power, the item's volume and, if it has one, its colour. */
  predicate Ready(item: Item, m: Module) {
    && m.on && m.volume == Some(item.volume)
    && (Coloured(item) ==> m.colour == Some((item.red, item.green, item.blue)))
  }

  ghost predicate AllFor(item: Item, sent: seq<Sent>) {
    forall i :: 0 <= i < |sent| ==> sent[i].track == item.track && Ready(item, sent[i].mp3)
  }

  /** The commands of one track after another. */
  ghost predicate Plays(sent: seq<Sent>, done: seq<Resolved>)
    decreases |done|
  {
    if done == [] then sent == []
    else
      var (before, last) := (done[..|done| - 1], done[|done| - 1]);
      && last.commands <= |sent| && Plays(sent[..|sent| - last.commands], before)
      && AllFor(last.item, sent[|sent| - last.commands..])
  }

  predicate HasPower(state: State) { state !in {IDLE, TURN_ON, RESTART_MODULE} }

  ghost predicate Told(p: Player) {
    var k := if InHand(p.state) then p.commands else 0;
    && k <= |p.sent| && Plays(p.sent[..|p.sent| - k], p.done) && AllFor(p.current, p.sent[|p.sent| - k..])
    && (p.mp3.on <==> HasPower(p.state)) && (p.state == IDLE ==> p.mp3.colour == None)
    && (p.state in {WAIT_FOR_CMD, PLAY, WAIT_FOR_START, WAIT_FOR_PLAY} ==> Ready(p.current, p.mp3))
  }

  lemma PlaysOneMore(sent: seq<Sent>, before: seq<Resolved>, r: Resolved)
    requires r.commands <= |sent| && Plays(sent[..|sent| - r.commands], before)
    requires AllFor(r.item, sent[|sent| - r.commands..])
    ensures Plays(sent, before + [r])
  {
    hide AllFor;
    var done := before + [r];
    assert done[..|done| - 1] == before && done[|done| - 1] == r;
  }

  lemma ResolveKeepsTold(p: Player, outcome: Outcome)
    requires Told(p) && p.state in {WAIT_FOR_START, WAIT_FOR_PLAY}
    ensures Told(Resolve(p, outcome))
  {
    hide Ready, AllFor, Plays;
    PlaysOneMore(p.sent, p.done, Resolved(p.current, outcome, p.commands));
    assert p.sent[..|p.sent| - 0] == p.sent && p.sent[|p.sent| - 0..] == [];
    NothingFor(p.current);
  }

  lemma NothingFor(item: Item)
    ensures AllFor(item, [])
  {}

  lemma TakenKeepsTold(p: Player, state: State)
    requires Told(p) && p.state in {IDLE, PLAYING_DELAY}
    requires state == if p.state == IDLE then TURN_ON else SET_VOLUME
    ensures Told(Taken(p, state))
  {
    hide Plays, Ready;
  }

  lemma OneMoreFor(item: Item, sent: seq<Sent>, s: Sent)
    requires AllFor(item, sent) && s.track == item.track && Ready(item, s.mp3)
    ensures AllFor(item, sent + [s])
  {
    hide Ready;
  }

  lemma CommandKeepsTold(p: Player, now: int, busyLow: bool)
    requires Told(p) && p.state == State.PLAY
    ensures Told(AfterRun(p, now, busyLow))
  {
    hide Plays, Ready, AllFor;
    var (q, k) := (AfterRun(p, now, busyLow), p.commands);
    var s := Sent(p.current.track, now, p.mp3, p.restarts > 0);
    OneMoreFor(p.current, p.sent[|p.sent| - k..], s);
    assert q.sent == p.sent + [s];
    assert q.sent[..|q.sent| - (k + 1)] == p.sent[..|p.sent| - k];
    assert q.sent[|q.sent| - (k + 1)..] == p.sent[|p.sent| - k..] + [s];
  }

  lemma RunKeepsTold(p: Player, now: int, busyLow: bool)
    requires Told(p)
    ensures Told(AfterRun(p, now, busyLow))
  {
    hide HasElapsed, Plays, AllFor, Resolve, Taken;
    match p.state
    case IDLE => TakenKeepsTold(p, TURN_ON);
    case PLAYING_DELAY => TakenKeepsTold(p.(ended := false), SET_VOLUME);
    case PLAY => CommandKeepsTold(p, now, busyLow);
    case WAIT_FOR_START =>
      ResolveKeepsTold(p.(ended := false), Finished);
      ResolveKeepsTold(p, Failed);
    case WAIT_FOR_PLAY =>
      ResolveKeepsTold(p.(ended := false), Finished);
      ResolveKeepsTold(p.(ended := false), TimedOut);
    case _ =>
  }

  lemma {:induction false} EventsKeepTold(p: Player, events: seq<Event>)
    requires Told(p)
    ensures Told(DfPlayer.Run(p, events))
    decreases |events|
  {
    hide Plays, AllFor, Ready, AfterRun;
    if events != [] {
      match events[0] {
        case Pass(now, busyLow) => RunKeepsTold(p, now, busyLow);
        case _ =>
      }
      EventsKeepTold(Next(p, events[0]), events[1..]);
    }
  }

  /** Over every run from power-up: the play commands are, track after track in the order of acceptance,
      those of the tracks dealt with and then those of the track in hand; each names its own track and
      reaches a module that has power, that track's volume and its colour. An idle player has switched
      the module off and given the LEDs back. */
  lemma PlayedAsAsked(current: Item, events: seq<Event>)
    ensures var p := DfPlayer.Run(PowerUp(current), events);
            && Items(p.done) <= p.accepted
            && (var k := if InHand(p.state) then p.commands else 0;
                && k <= |p.sent| && Plays(p.sent[..|p.sent| - k], p.done)
                && AllFor(p.current, p.sent[|p.sent| - k..])
                && (InHand(p.state) ==> p.accepted[|p.done|..] == [p.current] + p.queue))
            && (p.state == IDLE ==> !p.mp3.on && p.mp3.colour == None)
  {
    hide DfPlayer.Run;
    TracksInOrder(current, events);
    EventsKeepTold(PowerUp(current), events);
  }

  // ---------------------------------------------------------------- when

  /** The module had booted and had taken its volume; restarted for the track, it had been off long enough. */
  predicate InTime(s: Sent) {
    && s.at - s.mp3.volumeAt > 120 && s.mp3.volumeAt - s.mp3.onAt > 1000
    && (s.restarted ==> s.mp3.onAt - s.mp3.offAt > 1000)
  }

  ghost predicate Spaced(sent: seq<Sent>) {
    && (forall i :: 0 <= i < |sent| ==> InTime(sent[i]))
    && (forall i, j :: 0 <= i && i + 1 == j < |sent| ==> sent[j].at - sent[i].at > 500)
  }

  /** What is known of the clock before and while the module boots. */
  ghost predicate BootClock(p: Player, last: int) {
    && (p.state == RESTART_MODULE ==> p.timer == p.mp3.offAt)
    && (p.state == TURN_ON && p.restarts > 0 ==> last - p.mp3.offAt > MODULE_RESTART_TIME)
    && (p.state == WAIT_FOR_BOOT ==> p.timer == p.mp3.onAt)
    && (HasPower(p.state) && p.restarts > 0 ==> p.mp3.onAt - p.mp3.offAt > MODULE_RESTART_TIME)
    && (HasPower(p.state) && p.state != WAIT_FOR_BOOT ==> last - p.mp3.onAt > BOOT_TIME)
  }

  /** And from its volume command on. */
  ghost predicate VolumeClock(p: Player, last: int) {
    && (p.state == WAIT_FOR_CMD ==> p.timer == p.mp3.volumeAt)
    && (p.state in {WAIT_FOR_CMD, PLAY, WAIT_FOR_START} ==> p.mp3.volumeAt - p.mp3.onAt > BOOT_TIME)
    && (p.state in {PLAY, WAIT_FOR_START} ==> last - p.mp3.volumeAt > CMD_EXEC_TIME)
  }

  ghost predicate LastClock(p: Player, last: int) {
    p.sent != [] ==>
      var at := p.sent[|p.sent| - 1].at;
      && at <= last && (p.state == WAIT_FOR_START ==> p.timer == at)
      && (p.state in {WAIT_FOR_PLAY, PLAYING_DELAY, WAIT_FOR_BOOT} ==> at <= p.timer)
      && (p.state == SET_VOLUME ==> last - at > PLAY_DELAY_TIME)
      && (p.state == WAIT_FOR_CMD ==> p.timer - at > PLAY_DELAY_TIME)
      && (p.state == State.PLAY ==> last - at > PLAY_START_TIME)
  }

  ghost predicate Clocked(p: Player, last: int) {
    p.timer <= last && BootClock(p, last) && VolumeClock(p, last) && LastClock(p, last) && Spaced(p.sent)
  }

  /** Waiting is over only once the time has really passed. */
  lemma ElapsedIsPast(p: Player, now: int, duration: nat)
    requires p.timer <= now && HasElapsed(now, p.timer, duration)
    ensures now - p.timer > duration
  {}

  lemma TimeKeepsClocked(p: Player, last: int, now: int)
    requires Clocked(p, last) && last <= now
    ensures Clocked(p, now)
  {
    hide Spaced;
  }

  /** A pass other than a play command sends nothing. */
  lemma QuietPassKeepsClocked(p: Player, now: int, busyLow: bool)
    requires Clocked(p, now) && p.state != State.PLAY && p.state != WAIT_FOR_START
    ensures Clocked(AfterRun(p, now, busyLow), now)
  {
    hide HasElapsed, Spaced;
    forall d: nat | HasElapsed(now, p.timer, d) ensures now - p.timer > d { ElapsedIsPast(p, now, d); }
  }

  lemma WaitingKeepsClocked(p: Player, now: int, busyLow: bool)
    requires Clocked(p, now) && p.state == WAIT_FOR_START
    ensures Clocked(AfterRun(p, now, busyLow), now)
  {
    hide HasElapsed, Spaced;
    forall d: nat | HasElapsed(now, p.timer, d) ensures now - p.timer > d { ElapsedIsPast(p, now, d); }
  }

  lemma CommandKeepsClocked(p: Player, now: int, busyLow: bool)
    requires Clocked(p, now) && p.state == State.PLAY
    ensures Clocked(AfterRun(p, now, busyLow), now)
  {}

  lemma OtherEventKeepsClocked(p: Player, last: int, e: Event)
    requires Clocked(p, last) && !e.Pass?
    ensures Clocked(Next(p, e), last)
  {
    hide Spaced, Clamped;
  }

  ghost predicate Ordered(last: int, events: seq<Event>)
    decreases |events|
  {
    events == [] ||
    (if events[0].Pass? then last <= events[0].now && Ordered(events[0].now, events[1..])
     else Ordered(last, events[1..]))
  }

  lemma {:induction false} EventsKeepClocked(p: Player, last: int, events: seq<Event>)
    requires Clocked(p, last) && Ordered(last, events)
    ensures Spaced(DfPlayer.Run(p, events).sent)
    decreases |events|
  {
    hide Spaced, AfterRun, AfterPlay;
    if events != [] {
      var (e, q) := (events[0], Next(p, events[0]));
      if e.Pass? {
        TimeKeepsClocked(p, last, e.now);
        if p.state == State.PLAY { CommandKeepsClocked(p, e.now, e.busyLow); }
        else if p.state == WAIT_FOR_START { WaitingKeepsClocked(p, e.now, e.busyLow); }
        else { QuietPassKeepsClocked(p, e.now, e.busyLow); }
        EventsKeepClocked(q, e.now, events[1..]);
      } else {
        OtherEventKeepsClocked(p, last, e);
        EventsKeepClocked(q, last, events[1..]);
      }
    }
  }

  /** Over every run whose clock does not run backwards: each play command comes more than 120 ms after its
      volume command, which came more than a second after the module got its power; after a restart the
      module had been off for more than a second; and play commands are more than half a second apart. */
  lemma CommandsAreTimed(current: Item, events: seq<Event>)
    requires Ordered(0, events)
    ensures Spaced(DfPlayer.Run(PowerUp(current), events).sent)
  {
    hide DfPlayer.Run;
    EventsKeepClocked(PowerUp(current), 0, events);
  }

  // ---------------------------------------------------------------- good modules and deaf ones

  /** The module's end-of-play edge counts for the command before it and for no later one: while a track is
      waited for it ends it at once, and one that came before the command is forgotten. */
  lemma EdgeCountsForItsTrack(p: Player, now: int, busyLow: bool, later: int)
    ensures p.ended && p.state in {WAIT_FOR_START, WAIT_FOR_PLAY}
            && (p.state == WAIT_FOR_PLAY ==> !HasElapsed(now, p.timer, 10_000)) ==>
              var q := AfterRun(p, now, busyLow);
              q.state == CHECK_QUEUE && !q.ended && q.done == p.done + [Resolved(p.current, Finished, p.commands)]
    ensures p.state == State.PLAY && 0 <= later - now <= 500 ==>
              var q := AfterRun(p, now, busyLow);
              AfterRun(q, later, false) == q && q.done == p.done
  {}

  /** The module shows within half a second that the track has started, and within ten more that it is over. */
  predicate Responds(p: Player, e: Event) {
    e.Pass? ==>
      && (p.state == WAIT_FOR_START ==> p.ended || e.busyLow || !HasElapsed(e.now, p.timer, 500))
      && (p.state == WAIT_FOR_PLAY ==> !HasElapsed(e.now, p.timer, 10_000))
  }

  ghost predicate Healthy(p: Player, events: seq<Event>)
    decreases |events|
  {
    events == [] || (Responds(p, events[0]) && Healthy(Next(p, events[0]), events[1..]))
  }

  ghost predicate AllDone(done: seq<Resolved>, outcome: Outcome, commands: nat) {
    forall i :: 0 <= i < |done| ==> done[i].outcome == outcome && done[i].commands == commands
  }

  lemma {:induction false} HealthyRun(p: Player, events: seq<Event>)
    requires Inv(p) && Healthy(p, events) && AllDone(p.done, Finished, 1)
    requires InHand(p.state) ==> p.retries == 0 && p.restarts == 0
    ensures AllDone(DfPlayer.Run(p, events).done, Finished, 1)
    decreases |events|
  {
    hide HasElapsed, InOrder, DoneRight;
    if events != [] {
      NextKeepsInv(p, events[0]);
      HealthyRun(Next(p, events[0]), events[1..]);
    }
  }

  /** Every track a healthy module is given is played to its end after a single command. */
  lemma HealthyModulePlaysOnce(current: Item, events: seq<Event>)
    requires Healthy(PowerUp(current), events)
    ensures AllDone(DfPlayer.Run(PowerUp(current), events).done, Finished, 1)
  {
    hide DfPlayer.Run;
    HealthyRun(PowerUp(current), events);
  }

  /** The module never pulls BUSY low and never signals an end. */
  ghost predicate Deaf(events: seq<Event>) {
    forall i :: 0 <= i < |events| ==> events[i] != Interrupt && (events[i].Pass? ==> !events[i].busyLow)
  }

  lemma {:induction false} DeafRun(p: Player, events: seq<Event>)
    requires Inv(p) && Deaf(events) && AllDone(p.done, Failed, 6) && !p.ended && p.state != WAIT_FOR_PLAY
    ensures AllDone(DfPlayer.Run(p, events).done, Failed, 6)
    decreases |events|
  {
    hide HasElapsed, InOrder;
    if events != [] {
      NextKeepsInv(p, events[0]);
      DeafRun(Next(p, events[0]), events[1..]);
    }
  }

  /** Every track a deaf module is given is reported as failed, after six commands. */
  lemma DeafModuleFails(current: Item, events: seq<Event>)
    requires Deaf(events)
    ensures AllDone(DfPlayer.Run(PowerUp(current), events).done, Failed, 6)
  {
    hide DfPlayer.Run;
    DeafRun(PowerUp(current), events);
  }
}
