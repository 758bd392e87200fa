/** `lib/canCommissioner/src/canCommissioner.cpp`: the table of CAN nodes that wait for an address. */
module Commissioner {
  import opened Common

  const MAX_WAITING: nat := 4
  const FORGET_TIME: nat := 30_000
  const PROVISIONAL_BASE: nat := 0x300
  const ID_MASK: nat := 0x3FF

  type Uid = seq<Byte>

  datatype Waiting = Waiting(uid: Uid, provisionalId: nat, lastHeard: int, inUse: bool)

  predicate Lists(w: Waiting, uid: Uid) { w.inUse && w.uid == uid }

  ghost predicate Listed(table: seq<Waiting>, uid: Uid) { exists i :: 0 <= i < |table| && Lists(table[i], uid) }

  // ---------------------------------------------------------------- what the table promises

  /** Against everything ever heard: entries are what was heard last of their node, no node has two,
      and a node that is not listed was heard no later than any listed one, unless it has expired. */
  ghost predicate TableInv(table: seq<Waiting>, heard: map<Uid, int>, clock: int) {
    && 0 <= clock < TWO_32
    && (forall u :: u in heard ==> 0 <= heard[u] <= clock)
    && (forall i :: 0 <= i < |table| && table[i].inUse
            ==> table[i].uid in heard && heard[table[i].uid] == table[i].lastHeard)
    && (forall i, j :: 0 <= i < j < |table| && table[i].inUse && table[j].inUse ==> table[i].uid != table[j].uid)
    && (forall u :: u in heard && !Listed(table, u) && clock - heard[u] <= FORGET_TIME ==> NotAfter(table, heard[u]))
  }

  ghost predicate NotAfter(table: seq<Waiting>, time: int) {
    forall i :: 0 <= i < |table| && table[i].inUse ==> time <= table[i].lastHeard
  }

  // ---------------------------------------------------------------- the operations

  function Expired(w: Waiting, now: int): Waiting {
    if w.inUse && HasElapsed(now, w.lastHeard, FORGET_TIME) then w.(inUse := false) else w
  }

  /** The slot an announcement goes to: the node's own, else the first free one, else the one heard
      from longest ago. */
  ghost predicate IsPick(table: seq<Waiting>, uid: Uid, now: int, k: nat) {
    && k < |table|
    && (if Listed(table, uid) then Lists(table[k], uid)
        else if exists i :: 0 <= i < |table| && !table[i].inUse then !table[k].inUse
        else forall i :: 0 <= i < |table|
                 ==> ElapsedSince(now, table[i].lastHeard) <= ElapsedSince(now, table[k].lastHeard))
  }

  // ---------------------------------------------------------------- kept by every step

  lemma TimePasses(table: seq<Waiting>, heard: map<Uid, int>, clock: int, now: int)
    requires TableInv(table, heard, clock) && clock <= now < TWO_32
    ensures TableInv(table, heard, now)
  {}

  lemma ExpiryKeepsInv(table: seq<Waiting>, after: seq<Waiting>, heard: map<Uid, int>, now: int)
    requires TableInv(table, heard, now) && |after| == |table|
    requires forall i :: 0 <= i < |table| ==> after[i] == Expired(table[i], now)
    ensures TableInv(after, heard, now)
    ensures forall u :: Listed(after, u) <==> Listed(table, u) && u in heard && now - heard[u] <= FORGET_TIME
  {
    forall i | 0 <= i < |table| && table[i].inUse
      ensures after[i].inUse <==> now - table[i].lastHeard <= FORGET_TIME {}
    forall u | Listed(table, u) && u in heard && now - heard[u] <= FORGET_TIME ensures Listed(after, u) {
      var i :| 0 <= i < |table| && Lists(table[i], u);
      assert Lists(after[i], u);
    }
    forall u | Listed(after, u) ensures Listed(table, u) && u in heard && now - heard[u] <= FORGET_TIME {
      var i :| 0 <= i < |after| && Lists(after[i], u);
      assert Lists(table[i], u);
    }
  }

  /** Whoever has to make way was heard from before everybody else. */
  lemma EvictedIsOldest(table: seq<Waiting>, heard: map<Uid, int>, uid: Uid, now: int, k: nat)
    requires TableInv(table, heard, now) && IsPick(table, uid, now, k) && table[k].inUse && table[k].uid != uid
    ensures NotAfter(table, table[k].lastHeard)
  {
    forall i | 0 <= i < |table| && table[i].inUse ensures table[k].lastHeard <= table[i].lastHeard {
      assert ElapsedSince(now, table[i].lastHeard) <= ElapsedSince(now, table[k].lastHeard);
      assert heard[table[i].uid] == table[i].lastHeard && heard[table[k].uid] == table[k].lastHeard;
    }
  }

  lemma PickIsTheOnlyOne(table: seq<Waiting>, heard: map<Uid, int>, uid: Uid, now: int, k: nat)
    requires TableInv(table, heard, now) && IsPick(table, uid, now, k)
    ensures forall j :: 0 <= j < |table| && table[j].inUse && table[j].uid == uid ==> j == k
  {
    forall j | 0 <= j < |table| && table[j].inUse && table[j].uid == uid ensures j == k {
      assert Lists(table[j], uid);
    }
  }

  lemma NoteKeepsInv(table: seq<Waiting>, heard: map<Uid, int>, uid: Uid, from: nat, now: int, k: nat)
    requires TableInv(table, heard, now) && k < |table| && IsPick(table, uid, now, k)
    ensures TableInv(table[k := Waiting(uid, from, now, true)], heard[uid := now], now)
    ensures Listed(table[k := Waiting(uid, from, now, true)], uid)
  {
    hide IsPick;
    var (after, h) := (table[k := Waiting(uid, from, now, true)], heard[uid := now]);
    assert Lists(after[k], uid);
    PickIsTheOnlyOne(table, heard, uid, now, k);
    forall u | u in h && !Listed(after, u) && now - h[u] <= FORGET_TIME ensures NotAfter(after, h[u]) {
      if Listed(table, u) {
        var i :| 0 <= i < |table| && Lists(table[i], u);
        assert Lists(after[i], u) || i == k;
        EvictedIsOldest(table, heard, uid, now, k);
      }
    }
  }

  // ---------------------------------------------------------------- the object

  predicate IsProvisional(id: nat) { PROVISIONAL_BASE <= id <= ID_MASK }

  class CanCommissioner {
    const waiting: array<Waiting>
    ghost var heard: map<Uid, int>       // every node ever heard, and when last
    ghost var clock: int                 // the time of the last call

    ghost predicate Valid() reads this, waiting {
      waiting.Length == MAX_WAITING && TableInv(waiting[..], heard, clock)
    }

    constructor ()
      ensures Valid() && heard == map[] && clock == 0 && fresh(waiting)
    {
      waiting := new Waiting[MAX_WAITING](_ => Waiting(seq(8, _ => 0), 0, 0, false));
      heard, clock := map[], 0;
    }

    /** `run`: exactly the nodes not heard from for half a minute leave the table. */
    method Run(now: int)
      requires Valid() && clock <= now < TWO_32
      modifies this, waiting
      ensures Valid() && heard == old(heard) && clock == now
      ensures forall u :: Listed(waiting[..], u)
                  <==> old(Listed(waiting[..], u)) && u in heard && now - heard[u] <= FORGET_TIME
    {
      TimePasses(waiting[..], heard, clock, now);
      clock := now;
      for i := 0 to waiting.Length
        invariant heard == old(heard) && clock == now
        invariant forall j :: 0 <= j < i ==> waiting[j] == Expired(old(waiting[j]), now)
        invariant forall j :: i <= j < waiting.Length ==> waiting[j] == old(waiting[j])
      {
        if waiting[i].inUse && HasElapsed(now, waiting[i].lastHeard, FORGET_TIME) {
          waiting[i] := waiting[i].(inUse := false);
        }
      }
      ExpiryKeepsInv(old(waiting[..]), waiting[..], heard, now);
    }

    /** The scan of `noteAnnouncement`. */
    method FindSlot(uid: Uid, now: int) returns (k: nat)
      requires waiting.Length == MAX_WAITING
      ensures IsPick(waiting[..], uid, now, k)
    {
      var slot: Option<nat> := None;
      var oldest := 0;
      for i := 0 to waiting.Length
        invariant oldest < waiting.Length
        invariant forall j :: 0 <= j < i ==> !Lists(waiting[j], uid)
        invariant slot.None? ==> forall j :: 0 <= j < i ==> waiting[j].inUse
        invariant slot.Some? ==> slot.value < waiting.Length && !waiting[slot.value].inUse
        invariant forall j :: 0 <= j < i
                      ==> ElapsedSince(now, waiting[j].lastHeard) <= ElapsedSince(now, waiting[oldest].lastHeard)
      {
        if waiting[i].inUse && waiting[i].uid == uid {
          assert Lists(waiting[..][i], uid);
          return i;
        }
        if !waiting[i].inUse { slot := if slot.None? then Some(i) else slot; }
        if ElapsedSince(now, waiting[i].lastHeard) > ElapsedSince(now, waiting[oldest].lastHeard) { oldest := i; }
      }
      if slot.Some? {
        assert !waiting[..][slot.value].inUse;
        return slot.value;
      }
      return oldest;
    }

    /** `noteAnnouncement`. */
    method NoteAnnouncement(announce: bool, from: nat, uid: Uid, now: int)
      requires Valid() && clock <= now < TWO_32
      modifies this, waiting
      ensures Valid() && clock == now
      ensures announce && IsProvisional(from) ==> heard == old(heard)[uid := now]
      ensures announce && IsProvisional(from)
              ==> exists k: nat ::
                    && IsPick(old(waiting[..]), uid, now, k) && k < MAX_WAITING
                    && waiting[..] == old(waiting[..])[k := Waiting(uid, from, now, true)]
      ensures !(announce && IsProvisional(from)) ==> heard == old(heard) && waiting[..] == old(waiting[..])
    {
      TimePasses(waiting[..], heard, clock, now);
      clock := now;
      if !announce { return; }
      if !IsProvisional(from) { return; }
      var k := FindSlot(uid, now);
      assert IsPick(old(waiting[..]), uid, now, k);
      NoteKeepsInv(waiting[..], heard, uid, from, now, k);
      waiting[k] := Waiting(uid, from, now, true);
      heard := heard[uid := now];
      assert waiting[..] == old(waiting[..])[k := Waiting(uid, from, now, true)];
    }
  }
}
