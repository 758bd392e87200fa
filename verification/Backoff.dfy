/** The reconnect ladder: `lib/common/src/reconnectBackoff.hpp` and its use at boot and in every pass of
    `lib/connectivity/src/connectivity.cpp`. */
module Backoff {
  import opened Common

  const DELAYS_MS: seq<nat> := [5_000, 10_000, 20_000, 40_000, 80_000, 160_000, 300_000]
  const STEP_COUNT: nat := 7
  const ONLINE_SETTLE_MS: nat := 300_000

  class ReconnectBackoff {
    var stepIndex: nat

    ghost predicate Valid() reads this { stepIndex < STEP_COUNT }

    constructor ()
      ensures Valid() && stepIndex == 0
    {
      stepIndex := 0;
    }

    method OnFailure()
      requires Valid()
      modifies this
      ensures Valid() && stepIndex == Min(old(stepIndex) + 1, STEP_COUNT - 1)
    {
      if stepIndex + 1 < STEP_COUNT { stepIndex := stepIndex + 1; }
    }

    method OnSuccess()
      modifies this
      ensures Valid() && stepIndex == 0
    {
      stepIndex := 0;
    }

    method Restore(index: nat)
      modifies this
      ensures Valid() && stepIndex == Min(index, STEP_COUNT - 1)
    {
      stepIndex := if index < STEP_COUNT then index else STEP_COUNT - 1;
    }
  }

  // ---------------------------------------------------------------- boots

  /** How a boot ends: before it gets to the wait, after it with an error, in the middle of a connect
      (the watchdog resets the device), or online. */
  datatype Fate = FailedEarly | Returned | Killed | Online

  /** What outlives a boot: the stored rung, and whether the watchdog ended it. */
  datatype Kept = Kept(record: Option<nat>, wdtReset: bool)

  /** The rung a boot waits out and stores before it tries to connect. */
  function Waited(k: Kept): (rung: nat)
    ensures rung < STEP_COUNT
  {
    var restored := if k.record.Some? then Min(k.record.value, STEP_COUNT - 1) else 0;
    if k.wdtReset then Min(restored + 1, STEP_COUNT - 1) else restored
  }

  function AfterBoot(k: Kept, fate: Fate): Kept {
    match fate
    case FailedEarly => Kept(Some(1), false)
    case Returned => Kept(Some(Min(Waited(k) + 1, STEP_COUNT - 1)), false)
    case Killed => Kept(Some(Waited(k)), true)
    case Online => Kept(Some(Waited(k)), false)
  }

  function AfterBoots(k: Kept, fates: seq<Fate>): Kept
    decreases |fates|
  {
    if fates == [] then k else AfterBoots(AfterBoot(k, fates[0]), fates[1..])
  }

  /** The boot itself, on the object and the store. `waitMs` is the delay it has waited out. */
  method Boot(k: Kept, fate: Fate) returns (after: Kept, waitMs: nat)
    ensures after == AfterBoot(k, fate)
    ensures waitMs == if fate != FailedEarly && k.record.Some? then DELAYS_MS[Waited(k)] else 0
  {
    var backoff := new ReconnectBackoff();
    var record := k.record;
    waitMs := 0;
    if fate != FailedEarly {
      var hadRecord := record.Some?;
      if hadRecord { backoff.Restore(record.value); }
      if k.wdtReset { backoff.OnFailure(); }
      record := Some(backoff.stepIndex);
      if hadRecord { waitMs := DELAYS_MS[backoff.stepIndex]; }
      if fate == Killed { return Kept(record, true), waitMs; }
    }
    if fate != Online { backoff.OnFailure(); }
    record := Some(backoff.stepIndex);
    return Kept(record, false), waitMs;
  }

  ghost predicate FailsAfterWait(fates: seq<Fate>) { forall i :: 0 <= i < |fates| ==> fates[i] in {Returned, Killed} }

  lemma {:induction false} BootsClimb(k: Kept, fates: seq<Fate>)
    requires FailsAfterWait(fates)
    ensures Waited(AfterBoots(k, fates)) == Min(Waited(k) + |fates|, STEP_COUNT - 1)
    ensures fates != [] ==> AfterBoots(k, fates).record.Some?
    decreases |fates|
  {
    if fates != [] {
      BootsClimb(AfterBoot(k, fates[0]), fates[1..]);
    }
  }

  /** From a power-up with nothing stored: after `k` failed boots, however each of them failed, the
      next one waits rung `min(k, 6)`. */
  lemma EachFailureCostsOneRung(fates: seq<Fate>)
    requires FailsAfterWait(fates)
    ensures Waited(AfterBoots(Kept(None, false), fates)) == Min(|fates|, 6)
    ensures fates != [] ==> AfterBoots(Kept(None, false), fates).record.Some?
  {
    BootsClimb(Kept(None, false), fates);
  }

  /** A boot that fails before the wait has not read the record, and stores rung 1 over it: from there
      the climb starts anew. */
  lemma EarlyFailureForgets(k: Kept, fates: seq<Fate>)
    requires FailsAfterWait(fates)
    ensures Waited(AfterBoots(AfterBoot(k, FailedEarly), fates)) == Min(1 + |fates|, 6)
  {
    BootsClimb(AfterBoot(k, FailedEarly), fates);
  }

  /** Such a boot costs one rung, like the others, exactly if nothing was owed before it. */
  lemma EarlyFailureCostsOneRungIff(k: Kept)
    ensures AfterBoot(k, FailedEarly).record == Some(Min(Waited(k) + 1, STEP_COUNT - 1)) <==> Waited(k) == 0
    ensures forall fate :: fate in {Returned, Killed}
                ==> Waited(AfterBoot(k, fate)) == Min(Waited(k) + 1, STEP_COUNT - 1)
    ensures Waited(AfterBoot(k, FailedEarly)) == 1
  {}

  /** Boots that come online cost nothing and forgive nothing: that is left to the passes. */
  lemma {:induction false} OnlineBootsKeepRung(k: Kept, fates: seq<Fate>)
    requires forall i :: 0 <= i < |fates| ==> fates[i] == Online
    ensures fates != [] && !k.wdtReset ==> AfterBoots(k, fates) == Kept(Some(Waited(k)), false)
    ensures Waited(AfterBoots(k, fates)) == Waited(k)
    decreases |fates|
  {
    if fates != [] { OnlineBootsKeepRung(AfterBoot(k, fates[0]), fates[1..]); }
  }

  // ---------------------------------------------------------------- passes

  /** What a pass finds: the network, the client's loop, a connection attempt, the connection. */
  datatype Env = Env(now: int, network: bool, loopOk: bool, connectOk: bool, connected: bool)

  /** Two history fields beside the source's: `heldSince` is the time of the first pass of the present
      uninterrupted stretch on one connection, `madeAt` that of the last reconnect after the stamp. */
  datatype Link = Link(step: nat, record: nat, reconnectTimer: int, onlineSince: int, online: bool, network: bool,
                       heldSince: Option<int>, madeAt: Option<int>)

  predicate IsOnline(e: Env) { e.network && e.connected }

  /** The client has lost its connection and the wait for the next attempt is over. */
  predicate Tries(l: Link, e: Env)
    requires l.step < STEP_COUNT
  {
    !e.loopOk && e.network && HasElapsed(e.now, l.reconnectTimer, DELAYS_MS[l.step])
  }

  /** The network has come back: the pass tries to connect at once, and nobody looks at the outcome. */
  predicate Rejoins(l: Link, e: Env) { !l.network && e.network }

  /** The calls of `connectToMqttServer` in one pass. */
  function Attempts(l: Link, e: Env): nat
    requires l.step < STEP_COUNT
  {
    (if Rejoins(l, e) then 1 else 0) + (if Tries(l, e) then 1 else 0)
  }

  /** The pass makes a new connection in place of a lost one. */
  predicate Reconnects(l: Link, e: Env)
    requires l.step < STEP_COUNT
  {
    Tries(l, e) && e.connectOk
  }

  function Held(l: Link, e: Env): Option<int>
    requires l.step < STEP_COUNT
  {
    if !IsOnline(e) then None else if Reconnects(l, e) || l.heldSince.None? then Some(e.now) else l.heldSince
  }

  function Made(l: Link, e: Env): Option<int>
    requires l.step < STEP_COUNT
  {
    if IsOnline(e) && !l.online then None else if Reconnects(l, e) then Some(e.now) else l.madeAt
  }

  /** The settle check reads the stamp before the transition refreshes it. */
  function AfterPass(l: Link, e: Env): Link
    requires l.step < STEP_COUNT
  {
    var a := if e.loopOk || Tries(l, e) then l.(reconnectTimer := e.now) else l;
    var b := if Tries(l, e) && !e.connectOk
             then a.(step := Min(l.step + 1, STEP_COUNT - 1), record := Min(l.step + 1, STEP_COUNT - 1)) else a;
    var c := if IsOnline(e) && b.step != 0 && HasElapsed(e.now, l.onlineSince, ONLINE_SETTLE_MS)
             then b.(step := 0, record := 0) else b;
    c.(network := e.network, online := IsOnline(e),
       onlineSince := if IsOnline(e) && !l.online then e.now else l.onlineSince,
       heldSince := Held(l, e), madeAt := Made(l, e))
  }

  predicate Resets(l: Link, e: Env)
    requires l.step < STEP_COUNT
  {
    l.step != 0 && AfterPass(l, e).step == 0
  }

  /** In one pass the rung stays, climbs by one, or goes to the bottom; it climbs only on a failed
      attempt that was due, and goes to the bottom exactly on an online pass that comes more than five
      minutes after the stored stamp. The record follows the rung. */
  lemma LadderMoves(l: Link, e: Env)
    requires l.step < STEP_COUNT
    ensures var r := AfterPass(l, e);
            && r.step < STEP_COUNT && (r.step == 0 || r.step == l.step || r.step == l.step + 1)
            && (r.step > l.step ==> Tries(l, e) && !e.connectOk)
            && (Resets(l, e) <==> l.step != 0 && IsOnline(e) && HasElapsed(e.now, l.onlineSince, ONLINE_SETTLE_MS))
            && (l.record == l.step ==> r.record == r.step)
  {}

  // ---------------------------------------------------------------- what the stamp is worth

  /** The stretch on the present connection began with the stamp, or with a reconnect since. */
  ghost predicate Stamped(l: Link) {
    && l.step < STEP_COUNT && l.record == l.step && (l.online ==> l.network)
    && l.heldSince == if !l.online then None else if l.madeAt.Some? then l.madeAt else Some(l.onlineSince)
  }

  function Passes(l: Link, envs: seq<Env>): (r: Link)
    requires l.step < STEP_COUNT
    ensures r.step < STEP_COUNT
    decreases |envs|
  {
    if envs == [] then l else Passes(AfterPass(l, envs[0]), envs[1..])
  }

  /** The connection of this pass has been up, pass after pass, for more than five minutes. */
  ghost predicate Settled(l: Link, e: Env)
    requires l.step < STEP_COUNT
  {
    var held := AfterPass(l, e).heldSince;
    held.Some? && HasElapsed(e.now, held.value, ONLINE_SETTLE_MS)
  }

  lemma {:induction false} PassesKeepStamped(l: Link, envs: seq<Env>)
    requires Stamped(l)
    ensures Stamped(Passes(l, envs))
    decreases |envs|
  {
    hide HasElapsed;
    if envs != [] {
      LadderMoves(l, envs[0]);
      PassesKeepStamped(AfterPass(l, envs[0]), envs[1..]);
    }
  }

  /** Over every run: a reset of the ladder is earned by a connection that has held for five minutes
      exactly when the device was online on the pass before, this pass makes no new connection, and a
      connection made since the stamp was made more than five minutes ago. */
  lemma ResetIsEarnedIff(start: Link, envs: seq<Env>, e: Env)
    requires Stamped(start) && Resets(Passes(start, envs), e)
    ensures var l := Passes(start, envs);
            Settled(l, e) <==>
              l.online && !Reconnects(l, e)
              && (l.madeAt.Some? ==> HasElapsed(e.now, l.madeAt.value, ONLINE_SETTLE_MS))
  {
    PassesKeepStamped(start, envs);
    LadderMoves(Passes(start, envs), e);
  }

  /** The first kind of unearned reset: after an outage of more than five minutes the first online pass
      clears the ladder, before the new connection has held at all. */
  lemma LongOutageResetsAtOnce(step: nat, now: int, outage: nat)
    requires 0 < step < STEP_COUNT && ONLINE_SETTLE_MS < outage < TWO_32
    ensures var l := Link(step, step, now, now, true, true, Some(now), None);
            var down := Passes(l, [Env(now, false, false, false, false)]);
            var back := Env(now + outage, true, true, true, true);
            Stamped(l) && !down.online && Resets(down, back) && !Settled(down, back)
  {
    var l := Link(step, step, now, now, true, true, Some(now), None);
    var e := Env(now, false, false, false, false);
    assert [e][1..] == [] && Passes(l, [e]) == Passes(AfterPass(l, e), []);
  }

  /** The second kind: a connection lost and made again within one pass is no transition, so the stamp
      stays, and a ladder that was about to be cleared is cleared by the new connection. */
  lemma SilentReconnectResetsAtOnce(step: nat, now: int, up: nat)
    requires 0 < step < STEP_COUNT && ONLINE_SETTLE_MS < up < TWO_32
    ensures var l := Link(step, step, now, now, true, true, Some(now), None);
            var remade := Env(now + up, true, false, true, true);
            Stamped(l) && l.online && Reconnects(l, remade) && Resets(l, remade) && !Settled(l, remade)
  {
    assert DELAYS_MS[step] <= ONLINE_SETTLE_MS;
  }

  /** And one a while later: the new connection is younger than the stamp the check reads. */
  lemma EarlierReconnectResetsEarly(step: nat, now: int, up: nat, young: nat)
    requires 0 < step < STEP_COUNT && DELAYS_MS[step] < up <= ONLINE_SETTLE_MS
    requires 0 < young <= ONLINE_SETTLE_MS < up + young
    ensures var l := Link(step, step, now, now, true, true, Some(now), None);
            var made := Passes(l, [Env(now + up, true, false, true, true)]);
            var e := Env(now + up + young, true, true, true, true);
            Stamped(l) && made.online && made.madeAt == Some(now + up) && !Reconnects(made, e) && Resets(made, e)
                && !Settled(made, e)
  {
    var l := Link(step, step, now, now, true, true, Some(now), None);
    var e := Env(now + up, true, false, true, true);
    assert [e][1..] == [] && Passes(l, [e]) == Passes(AfterPass(l, e), []);
  }

  // ---------------------------------------------------------------- the waits between attempts

  ghost predicate Ordered(last: int, envs: seq<Env>)
    decreases |envs|
  {
    envs == [] || (last <= envs[0].now && Ordered(envs[0].now, envs[1..]))
  }

  ghost function LastTime(last: int, envs: seq<Env>): int { if envs == [] then last else envs[|envs| - 1].now }

  lemma {:induction false} TimerOnlyMovesOn(l: Link, last: int, envs: seq<Env>)
    requires l.step < STEP_COUNT && Ordered(last, envs) && l.reconnectTimer <= last
    ensures l.reconnectTimer <= Passes(l, envs).reconnectTimer <= LastTime(last, envs)
    decreases |envs|
  {
    hide HasElapsed;
    if envs != [] {
      var next := AfterPass(l, envs[0]);
      assert next.reconnectTimer in {l.reconnectTimer, envs[0].now};
      TimerOnlyMovesOn(next, envs[0].now, envs[1..]);
      assert envs[1..] != [] ==> envs[1..][|envs| - 2] == envs[|envs| - 1];
    }
  }

  /** Over every run of a clock that does not run backwards: after a pass that tried, or that found the
      connection alive, the next attempt of the ladder comes more than a full delay later, and that delay is
      at least the one of the rung the pass left unless an online stretch has cleared the ladder since. */
  lemma AttemptsAreSpaced(l: Link, e: Env, between: seq<Env>, f: Env)
    requires l.step < STEP_COUNT && (Tries(l, e) || e.loopOk) && Ordered(e.now, between + [f])
    requires Tries(Passes(AfterPass(l, e), between), f)
    ensures f.now - e.now > DELAYS_MS[Passes(AfterPass(l, e), between).step]
    ensures NeverOnline(between) ==> f.now - e.now > DELAYS_MS[AfterPass(l, e).step]
  {
    hide Ordered, AfterPass;
    TryStampsTimer(l, e);
    if NeverOnline(between) { OfflineNeverDescends(AfterPass(l, e), between); }
    var first := AfterPass(l, e);
    OrderedParts(e.now, between, f);
    TimerOnlyMovesOn(first, e.now, between);
    var timer := Passes(first, between).reconnectTimer;
    ElapsedTakesTime(f.now, timer, DELAYS_MS[Passes(first, between).step]);
  }

  lemma TryStampsTimer(l: Link, e: Env)
    requires l.step < STEP_COUNT && (Tries(l, e) || e.loopOk)
    ensures AfterPass(l, e).reconnectTimer == e.now && AfterPass(l, e).step < STEP_COUNT
  {
    hide HasElapsed;
  }

  ghost predicate NeverOnline(envs: seq<Env>) { forall i :: 0 <= i < |envs| ==> !IsOnline(envs[i]) }

  lemma {:induction false} OfflineNeverDescends(l: Link, envs: seq<Env>)
    requires l.step < STEP_COUNT && NeverOnline(envs)
    ensures l.step <= Passes(l, envs).step
    ensures DELAYS_MS[l.step] <= DELAYS_MS[Passes(l, envs).step]
    decreases |envs|
  {
    hide HasElapsed;
    if envs != [] {
      LadderMoves(l, envs[0]);
      OfflineNeverDescends(AfterPass(l, envs[0]), envs[1..]);
    }
  }

  lemma ElapsedTakesTime(now: int, start: int, delay: nat)
    requires HasElapsed(now, start, delay) && delay <= 300_000
    ensures now > start + delay || now < start
  {}

  lemma {:induction false} OrderedParts(last: int, envs: seq<Env>, f: Env)
    requires Ordered(last, envs + [f])
    ensures Ordered(last, envs) && LastTime(last, envs) <= f.now
    decreases |envs|
  {
    if envs != [] {
      assert (envs + [f])[1..] == envs[1..] + [f];
      OrderedParts(envs[0].now, envs[1..], f);
    }
  }

  /** The server is away and the network is up. */
  ghost predicate Outage(envs: seq<Env>) {
    forall i :: 0 <= i < |envs| ==> envs[i].network && !envs[i].loopOk && !envs[i].connectOk && !envs[i].connected
  }

  /** A pass at least every `gap` milliseconds. */
  ghost predicate Steady(last: int, envs: seq<Env>, gap: nat)
    decreases |envs|
  {
    envs == [] || (last <= envs[0].now <= last + gap && Steady(envs[0].now, envs[1..], gap))
  }

  /** The delays of `k` attempts in a row, each pass coming `late` milliseconds after it was due. */
  ghost function Waits(step: nat, k: nat, late: nat): nat
    requires step < STEP_COUNT
    decreases k
  {
    if k == 0 then 0 else DELAYS_MS[step] + late + Waits(Min(step + 1, STEP_COUNT - 1), k - 1, late)
  }

  ghost function Tried(l: Link, envs: seq<Env>): nat
    requires l.step < STEP_COUNT
    decreases |envs|
  {
    if envs == [] then 0 else Attempts(l, envs[0]) + Tried(AfterPass(l, envs[0]), envs[1..])
  }

  /** One pass of an outage: an attempt exactly when the rung's delay is over. */
  lemma OutagePass(l: Link, e: Env)
    requires l.step < STEP_COUNT && l.network && Outage([e]) && 0 <= e.now - l.reconnectTimer < TWO_32
    ensures var r := AfterPass(l, e);
            if e.now - l.reconnectTimer > DELAYS_MS[l.step]
            then && Attempts(l, e) == 1 && r.reconnectTimer == e.now && r.network
                 && r.step == Min(l.step + 1, STEP_COUNT - 1)
            else Attempts(l, e) == 0 && r.reconnectTimer == l.reconnectTimer && r.network && r.step == l.step
  {
    assert [e][0] == e;
  }

  /** Over every outage the number of attempts follows the ladder: `k` of them have taken more than their
      delays, the next one is not yet overdue, and each has cost one rung. */
  lemma {:induction false} OutageFollowsLadder(l: Link, last: int, envs: seq<Env>, gap: nat)
    requires l.step < STEP_COUNT && l.network && Outage(envs) && Steady(last, envs, gap) && gap < 0x8000_0000
    requires 0 <= last - l.reconnectTimer <= DELAYS_MS[l.step]
    ensures var k := Tried(l, envs);
            && LastTime(last, envs) - l.reconnectTimer >= Waits(l.step, k, 1)
            && LastTime(last, envs) - l.reconnectTimer <= Waits(l.step, k + 1, gap)
            && Passes(l, envs).step == Min(l.step + k, STEP_COUNT - 1)
    decreases |envs|
  {
    hide HasElapsed, AfterPass, Attempts;
    if envs == [] {
      assert Waits(l.step, 1, gap) == DELAYS_MS[l.step] + gap + Waits(Min(l.step + 1, STEP_COUNT - 1), 0, gap);
    } else {
      var e := envs[0];
      assert Outage([e]) && Outage(envs[1..]);
      OutagePass(l, e);
      var next := AfterPass(l, e);
      OutageFollowsLadder(next, e.now, envs[1..], gap);
      assert LastTime(last, envs) == LastTime(e.now, envs[1..]);
    }
  }

  /** An attempt the ladder does not hold back: when the network returns the pass tries at once, whatever the
      rung and however short the time, and its failure costs no rung. */
  lemma NetworkReturnDoesNotWait(l: Link, now: int)
    requires l.step < STEP_COUNT
    ensures var down := AfterPass(l, Env(now, false, false, false, false));
            var back := Env(now, true, false, false, false);
            Attempts(down, back) >= 1 && (!Tries(down, back) ==> AfterPass(down, back).step == l.step)
  {}

  // ---------------------------------------------------------------- the object

  class Connectivity {
    const backoff: ReconnectBackoff
    var record: nat                      // the rung in the persistent store
    var reconnectTimer: int
    var onlineSinceTimer: int
    var onlineState: bool
    var networkState: bool
    ghost var heldSince: Option<int>
    ghost var madeAt: Option<int>

    ghost function View(): Link reads this, backoff {
      Link(backoff.stepIndex, record, reconnectTimer, onlineSinceTimer, onlineState, networkState, heldSince,
          madeAt)
    }

    /** The state after a boot that came online. */
    constructor (booted: Kept, now: int)
      requires booted.record.Some? && booted.record.value < STEP_COUNT
      ensures backoff.Valid() && fresh(backoff) && Stamped(View()) && View().step == booted.record.value
    {
      var b := new ReconnectBackoff();
      b.Restore(booted.record.value);
      backoff := b;
      record, reconnectTimer, onlineSinceTimer := booted.record.value, 0, now;
      onlineState, networkState := true, true;
      heldSince, madeAt := Some(now), None;
    }

    /** The reconnect and settle part of `run`; `attempts` counts the calls of `connectToMqttServer`. */
    method Run(e: Env) returns (attempts: nat)
      requires backoff.Valid()
      modifies this, backoff
      ensures backoff.Valid() && View() == AfterPass(old(View()), e) && attempts == Attempts(old(View()), e)
    {
      hide HasElapsed;
      ghost var before := View();
      attempts := 0;
      if e.network != networkState {
        networkState := e.network;
        if networkState { attempts := attempts + 1; }
      }
      if e.loopOk {
        reconnectTimer := e.now;
      } else if networkState && HasElapsed(e.now, reconnectTimer, DELAYS_MS[backoff.stepIndex]) {
        reconnectTimer := e.now;
        attempts := attempts + 1;
        if !e.connectOk {
          backoff.OnFailure();
          record := backoff.stepIndex;
        }
      }
      var actualOnlineState := networkState && e.connected;
      if actualOnlineState && backoff.stepIndex != 0 && HasElapsed(e.now, onlineSinceTimer, ONLINE_SETTLE_MS) {
        backoff.OnSuccess();
        record := backoff.stepIndex;
      }
      if actualOnlineState != onlineState {
        onlineState := actualOnlineState;
        if onlineState { onlineSinceTimer := e.now; }
      }
      heldSince, madeAt := Held(before, e), Made(before, e);
    }
  }
}
