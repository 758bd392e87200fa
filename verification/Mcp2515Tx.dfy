/** The transmit side of `lib/CANDriver/src/MCP2515.cpp`: three controller buffers handed out from the
    top down, refilled only when all are empty, against a controller that always sends the
    highest-numbered pending buffer first. */
module Mcp2515Tx {
  import opened Common

  const TX_BUFFER_COUNT: nat := 3

  /** The controller's buffers (a frame while its TXREQ bit is set), the driver's `txBuffersLeft`, and the
      history: frames `endPacket` accepted, frames the bus carried, whether a flush timed out. */
  datatype Tx<F> = Tx(buf: seq<Option<F>>, left: nat, accepted: seq<F>, sent: seq<F>, timedOut: bool)

  function Initial<F>(): Tx<F> { Tx([None, None, None], TX_BUFFER_COUNT, [], [], false) }

  /** Frames still pending, in the order the controller will send them. */
  function Pending<F>(buf: seq<Option<F>>): seq<F> {
    if buf == [] then []
    else (if buf[|buf| - 1].Some? then [buf[|buf| - 1].value] else []) + Pending(buf[..|buf| - 1])
  }

  // ---------------------------------------------------------------- order

  /** `a` is `b` with some elements left out. */
  predicate Subsequence<F(==)>(a: seq<F>, b: seq<F>) {
    if a == [] then true
    else if b == [] then false
    else (a[|a| - 1] == b[|b| - 1] && Subsequence(a[..|a| - 1], b[..|b| - 1])) || Subsequence(a, b[..|b| - 1])
  }

  lemma SubsequenceAppend<F>(a: seq<F>, b: seq<F>, f: F)
    requires Subsequence(a, b)
    ensures Subsequence(a + [f], b + [f])
  {
    assert (a + [f])[..|a|] == a && (b + [f])[..|b|] == b;
  }

  lemma {:induction false} SubsequenceDrop<F>(x: seq<F>, f: F, y: seq<F>, b: seq<F>)
    requires Subsequence(x + [f] + y, b)
    ensures Subsequence(x + y, b)
    decreases |b|
  {
    var a := x + [f] + y;
    if x + y == [] {
    } else if a[|a| - 1] == b[|b| - 1] && Subsequence(a[..|a| - 1], b[..|b| - 1]) {
      if y == [] {
        assert a[..|a| - 1] == x == x + y;
        SubsequenceMore(x, b[..|b| - 1], b[|b| - 1]);
        assert b == b[..|b| - 1] + [b[|b| - 1]];
      } else {
        var y' := y[..|y| - 1];
        assert a[..|a| - 1] == x + [f] + y';
        SubsequenceDrop(x, f, y', b[..|b| - 1]);
        assert (x + y)[..|x + y| - 1] == x + y';
      }
    } else {
      SubsequenceDrop(x, f, y, b[..|b| - 1]);
    }
  }

  lemma SubsequenceMore<F>(a: seq<F>, b: seq<F>, f: F)
    requires Subsequence(a, b)
    ensures Subsequence(a, b + [f])
  {
    assert (b + [f])[..|b|] == b;
  }

  lemma {:induction false} SubsequencePrefix<F>(a: seq<F>, c: seq<F>, b: seq<F>)
    requires Subsequence(a + c, b)
    ensures Subsequence(a, b)
    decreases |c|
  {
    if c == [] {
      assert a + c == a;
    } else {
      var c' := c[..|c| - 1];
      assert a + c == (a + c') + [c[|c| - 1]] + [];
      SubsequenceDrop(a + c', c[|c| - 1], [], b);
      assert (a + c') + [] == a + c';
      SubsequencePrefix(a, c', b);
    }
  }

  // ---------------------------------------------------------------- single actions

  /** What may happen at any moment: the controller sends, a timed-out flush clears a request, the
      driver takes the next buffer down, sets a request in the buffer it took, or finds every buffer
      empty and starts over. */
  datatype Action<F> = Transmit | Abort(n: nat) | Take | Load(frame: F) | Refill

  predicate Top<F>(buf: seq<Option<F>>, n: nat) {
    n < |buf| && buf[n].Some? && forall m :: n < m < |buf| ==> buf[m].None?
  }

  ghost predicate Enabled<F(!new)>(t: Tx<F>, a: Action<F>) {
    |t.buf| == TX_BUFFER_COUNT &&
    match a
    case Transmit => exists n :: Top(t.buf, n)
    case Abort(n) => n < TX_BUFFER_COUNT
    case Take => 0 < t.left <= TX_BUFFER_COUNT
    case Load(_) => t.left < TX_BUFFER_COUNT && t.buf[t.left].None?
    case Refill => forall n :: 0 <= n < TX_BUFFER_COUNT ==> t.buf[n].None?
  }

  function Send<F>(t: Tx<F>, n: nat): Tx<F>
    requires Top(t.buf, n)
  {
    t.(buf := t.buf[n := None], sent := t.sent + [t.buf[n].value])
  }

  function Clear<F>(t: Tx<F>, n: nat): Tx<F>
    requires n < |t.buf|
  {
    t.(buf := t.buf[n := None], timedOut := true)
  }

  function Put<F>(t: Tx<F>, f: F): Tx<F>
    requires t.left < |t.buf|
  {
    t.(buf := t.buf[t.left := Some(f)], accepted := t.accepted + [f])
  }

  ghost function Next<F(!new)>(t: Tx<F>, a: Action<F>): Tx<F>
    requires Enabled(t, a)
  {
    match a
    case Transmit => var n :| Top(t.buf, n); Send(t, n)
    case Abort(n) => Clear(t, n)
    case Take => t.(left := t.left - 1)
    case Load(f) => Put(t, f)
    case Refill => t.(left := TX_BUFFER_COUNT)
  }

  /** Buffers not handed out yet are empty; what was sent and is pending, in that order, is what was
      accepted, less what timed-out flushes gave up. */
  ghost predicate Inv<F(!new)>(t: Tx<F>) {
    && |t.buf| == TX_BUFFER_COUNT && t.left <= TX_BUFFER_COUNT
    && (forall n :: 0 <= n < t.left ==> t.buf[n].None?)
    && Subsequence(t.sent + Pending(t.buf), t.accepted)
    && (!t.timedOut ==> t.sent + Pending(t.buf) == t.accepted)
  }

  lemma {:induction false} PendingSplit<F>(buf: seq<Option<F>>, n: nat)
    requires n < |buf|
    ensures Pending(buf) == Pending(buf[n + 1..]) + (if buf[n].Some? then [buf[n].value] else []) + Pending(buf[..n])
    decreases |buf|
  {
    var last := |buf| - 1;
    if n == last {
      assert buf[n + 1..] == [];
    } else {
      PendingSplit(buf[..last], n);
      assert buf[..last][n + 1..] == buf[n + 1..][..|buf[n + 1..]| - 1] && buf[..last][..n] == buf[..n];
    }
  }

  lemma {:induction false} PendingEmpty<F>(buf: seq<Option<F>>)
    requires forall n :: 0 <= n < |buf| ==> buf[n].None?
    ensures Pending(buf) == []
  {
    if buf != [] { PendingEmpty(buf[..|buf| - 1]); }
  }

  /** Replacing one buffer changes only its own place in the order. */
  lemma PendingUpdate<F>(buf: seq<Option<F>>, n: nat, b: Option<F>)
    requires n < |buf|
    ensures Pending(buf[n := b]) == Pending(buf[n + 1..]) + (if b.Some? then [b.value] else []) + Pending(buf[..n])
  {
    PendingSplit(buf[n := b], n);
    assert buf[n := b][n + 1..] == buf[n + 1..] && buf[n := b][..n] == buf[..n];
  }

  lemma SendKeepsInv<F(!new)>(t: Tx<F>, n: nat)
    requires Inv(t) && Top(t.buf, n)
    ensures Inv(Send(t, n))
  {
    hide Subsequence, Pending;
    PendingSplit(t.buf, n);
    PendingUpdate(t.buf, n, None);
    PendingEmpty(t.buf[n + 1..]);
    assert t.sent + Pending(t.buf) == Send(t, n).sent + Pending(Send(t, n).buf);
  }

  lemma ClearKeepsInv<F(!new)>(t: Tx<F>, n: nat)
    requires Inv(t) && n < TX_BUFFER_COUNT
    ensures Inv(Clear(t, n))
  {
    hide Subsequence, Pending;
    PendingSplit(t.buf, n);
    PendingUpdate(t.buf, n, None);
    var (p, q) := (t.sent + Pending(t.buf[n + 1..]), Pending(t.buf[..n]));
    assert t.sent + Pending(Clear(t, n).buf) == p + q;
    if t.buf[n].Some? {
      assert t.sent + Pending(t.buf) == p + [t.buf[n].value] + q;
      SubsequenceDrop(p, t.buf[n].value, q, t.accepted);
    } else {
      assert t.sent + Pending(t.buf) == p + q;
    }
  }

  lemma PutKeepsInv<F(!new)>(t: Tx<F>, f: F)
    requires Inv(t) && t.left < TX_BUFFER_COUNT && t.buf[t.left].None?
    ensures Inv(Put(t, f))
  {
    hide Subsequence, Pending;
    var n := t.left;
    PendingSplit(t.buf, n);
    PendingUpdate(t.buf, n, Some(f));
    PendingEmpty(t.buf[..n]);
    assert t.sent + Pending(Put(t, f).buf) == (t.sent + Pending(t.buf)) + [f];
    SubsequenceAppend(t.sent + Pending(t.buf), t.accepted, f);
  }

  lemma NextKeepsInv<F(!new)>(t: Tx<F>, a: Action<F>)
    requires Inv(t) && Enabled(t, a)
    ensures Inv(Next(t, a))
  {
    hide Subsequence, Pending;
    match a
    case Transmit =>
      var u := Next(t, a);
      var n :| Top(t.buf, n) && u == Send(t, n);
      SendKeepsInv(t, n);
    case Abort(n) => ClearKeepsInv(t, n);
    case Take =>
    case Load(f) => PutKeepsInv(t, f);
    case Refill =>
  }

  // ---------------------------------------------------------------- every interleaving

  ghost predicate Possible<F(!new)>(t: Tx<F>, actions: seq<Action<F>>)
    decreases |actions|
  {
    actions == [] || (Enabled(t, actions[0]) && Possible(Next(t, actions[0]), actions[1..]))
  }

  ghost function Final<F(!new)>(t: Tx<F>, actions: seq<Action<F>>): Tx<F>
    requires Possible(t, actions)
    decreases |actions|
  {
    if actions == [] then t else Final(Next(t, actions[0]), actions[1..])
  }

  lemma {:induction false} RunKeepsInv<F(!new)>(t: Tx<F>, actions: seq<Action<F>>)
    requires Inv(t) && Possible(t, actions)
    ensures Inv(Final(t, actions))
    decreases |actions|
  {
    hide Inv, Next, Enabled;
    if actions != [] {
      NextKeepsInv(t, actions[0]);
      RunKeepsInv(Next(t, actions[0]), actions[1..]);
    }
  }

  /** For every interleaving of accepting, flushing and sending, the frames leave on the bus as a
      subsequence of the accepted frames in acceptance order, and as a prefix of them if no flush
      ever timed out. */
  lemma BusKeepsOrder<F(!new)>(actions: seq<Action<F>>)
    requires Possible(Initial<F>(), actions)
    ensures var t := Final(Initial<F>(), actions);
            Subsequence(t.sent, t.accepted) && (!t.timedOut ==> t.sent <= t.accepted)
  {
    var t0 := Initial<F>();
    PendingEmpty(t0.buf);
    RunKeepsInv(t0, actions);
    var t := Final(t0, actions);
    SubsequencePrefix(t.sent, Pending(t.buf), t.accepted);
  }

  // ---------------------------------------------------------------- the driver

  /** No request is pending. */
  ghost predicate Idle<F(!new)>(t: Tx<F>) { forall n :: 0 <= n < |t.buf| ==> t.buf[n].None? }

  /** The driver and, between any two of its register accesses, the controller. */
  class MCP2515<F(!new)> {
    var tx: Tx<F>                        // registers and txBuffersLeft, with their history

    ghost predicate Valid() reads this { Inv(tx) }

    constructor ()
      ensures Valid() && tx == Initial()
    {
      tx := Initial();
      PendingEmpty(Initial<F>().buf);
    }

    /** The controller sends any number of its pending frames, highest buffer first; all of them if the bus lets
        it. */
    method Bus(free: bool)
      requires Valid()
      modifies this
      ensures Valid() && tx.left == old(tx.left) && tx.accepted == old(tx.accepted) && tx.timedOut == old(tx.timedOut)
      ensures old(tx.sent) <= tx.sent
      ensures forall n :: 0 <= n < TX_BUFFER_COUNT ==> tx.buf[n].None? || tx.buf[n] == old(tx.buf)[n]
      ensures free ==> Idle(tx)
    {
      hide Pending, Subsequence;
      var count: nat :| 0 <= count <= TX_BUFFER_COUNT && (free ==> count == TX_BUFFER_COUNT);
      for i := 0 to count
        invariant Valid() && tx.left == old(tx.left) && tx.accepted == old(tx.accepted)
                  && tx.timedOut == old(tx.timedOut)
        invariant old(tx.sent) <= tx.sent
        invariant forall n :: 0 <= n < TX_BUFFER_COUNT ==> tx.buf[n].None? || tx.buf[n] == old(tx.buf)[n]
        invariant forall n :: TX_BUFFER_COUNT - i <= n < TX_BUFFER_COUNT ==> tx.buf[n].None?
      {
        var n := if tx.buf[2].Some? then 2 else if tx.buf[1].Some? then 1 else 0;
        if tx.buf[n].None? { return; }
        SendKeepsInv(tx, n);
        tx := Send(tx, n);
      }
    }

    /** `flushTx`: polls until every request is gone, or gives up after `polls` rounds and clears
        what the last round saw pending. Either way no request is left; on a timeout frames may be
        lost. With no request pending there is nothing to wait for, and a bus that is free from round
        `freeFrom` on, early enough, is waited for. */
    method FlushTx(polls: nat, freeFrom: nat) returns (ok: bool)
      requires Valid()
      modifies this
      ensures Valid() && tx.left == old(tx.left) && tx.accepted == old(tx.accepted) && old(tx.sent) <= tx.sent
      ensures Idle(tx) && tx.timedOut == (old(tx.timedOut) || !ok)
      ensures Idle(old(tx)) || freeFrom <= polls ==> ok
    {
      hide Pending, Subsequence;
      var round := 0;
      while true
        invariant 0 <= round <= polls
        invariant Valid() && tx.left == old(tx.left) && tx.accepted == old(tx.accepted) && old(tx.sent) <= tx.sent
        invariant tx.timedOut == old(tx.timedOut) && (Idle(old(tx)) ==> Idle(tx))
        decreases polls - round
      {
        var pending := [false, false, false];
        for n := 0 to TX_BUFFER_COUNT
          invariant Valid() && tx.left == old(tx.left) && tx.accepted == old(tx.accepted) && old(tx.sent) <= tx.sent
          invariant tx.timedOut == old(tx.timedOut) && |pending| == TX_BUFFER_COUNT
          invariant Idle(old(tx)) ==> Idle(tx)
          invariant Idle(old(tx)) || freeFrom <= round ==> pending == [false, false, false]
          invariant forall m :: 0 <= m < n ==> pending[m] || tx.buf[m].None?
        {
          Bus(freeFrom <= round);
          if tx.buf[n].Some? { pending := pending[n := true]; }
        }
        if !pending[0] && !pending[1] && !pending[2] { return true; }
        if round == polls {
          for n := 0 to TX_BUFFER_COUNT
            invariant Valid() && tx.left == old(tx.left) && tx.accepted == old(tx.accepted) && old(tx.sent) <= tx.sent
            invariant forall m :: 0 <= m < TX_BUFFER_COUNT && (m < n || !pending[m]) ==> tx.buf[m].None?
            invariant tx.timedOut == (old(tx.timedOut) || exists m :: 0 <= m < n && pending[m])
          {
            if pending[n] {
              Bus(false);
              ClearKeepsInv(tx, n);
              tx := Clear(tx, n);
            }
          }
          return false;
        }
        round := round + 1;
        Bus(false);
      }
    }

    /** `takeTxBuffer`: a buffer is refused only after a flush that timed out; one that succeeded gives all
        three back. */
    method TakeTxBuffer(polls: nat, freeFrom: nat) returns (n: nat)
      requires Valid()
      modifies this
      ensures Valid() && tx.accepted == old(tx.accepted) && old(tx.sent) <= tx.sent
      ensures old(tx.left) > 0 || Idle(old(tx)) || freeFrom <= polls ==> n < TX_BUFFER_COUNT
      ensures n == TX_BUFFER_COUNT ==> tx.timedOut && Idle(tx)
      ensures n < TX_BUFFER_COUNT ==> n == tx.left && tx.buf[n].None? && tx.timedOut == old(tx.timedOut)
      ensures n < TX_BUFFER_COUNT ==> tx.left + 1 == if old(tx.left) == 0 then TX_BUFFER_COUNT else old(tx.left)
      ensures n <= TX_BUFFER_COUNT
    {
      hide Pending, Subsequence;
      if tx.left == 0 {
        var flushed := FlushTx(polls, freeFrom);
        if !flushed { return TX_BUFFER_COUNT; }
        tx := tx.(left := TX_BUFFER_COUNT);
      }
      tx := tx.(left := tx.left - 1);
      return tx.left;
    }

    /** `endPacket`; the request bit is the last register written. An idle controller takes every frame, a
        bus that frees up within the timeout lets it in, and a refusal comes only after a timed-out flush,
        which leaves the controller idle. */
    method EndPacket(packetBegun: bool, frame: F, polls: nat, freeFrom: nat) returns (r: nat)
      requires Valid()
      modifies this
      ensures Valid() && r in {0, 1} && old(tx.sent) <= tx.sent
      ensures r == 1 ==> tx.accepted == old(tx.accepted) + [frame] && tx.timedOut == old(tx.timedOut)
      ensures r == 0 ==> tx.accepted == old(tx.accepted)
      ensures !packetBegun ==> r == 0
      ensures packetBegun && (old(tx.left) > 0 || Idle(old(tx)) || freeFrom <= polls) ==> r == 1
      ensures packetBegun && r == 0 ==> tx.timedOut && Idle(tx)
    {
      hide Pending, Subsequence;
      if !packetBegun { return 0; }
      var n := TakeTxBuffer(polls, freeFrom);
      if n >= TX_BUFFER_COUNT { return 0; }
      Bus(false);
      PutKeepsInv(tx, frame);
      tx := Put(tx, frame);
      return 1;
    }
  }
}
