/** `lib/CircularBuffer/src/CircularBuffer.hpp`: a ring over a fixed array that is a bounded queue. */
module RingBuffer {

  /** What `put` means for the queue: when it is full the oldest element makes room. */
  function Pushed<T>(q: seq<T>, capacity: nat, item: T): (r: seq<T>)
    requires |q| <= capacity && capacity > 0
    ensures |r| <= capacity
  {
    (if |q| == capacity then q[1..] else q) + [item]
  }

  /** The step both indices take. */
  lemma NextIndex(i: nat, n: nat)
    requires i < n
    ensures (i + 1) % n == After(i, n)
  {
    if i + 1 == n { assert n % n == 0; }
  }

  /** The queue in the array, oldest first: up to the head, or round the end. */
  ghost function Ring<T>(a: seq<T>, head: nat, tail: nat, full: bool): (q: seq<T>)
    requires head < |a| && tail < |a| && (full ==> head == tail)
    ensures |q| == if full then |a| else if head >= tail then head - tail else |a| + head - tail
  {
    if tail <= head && !full then a[tail..head] else a[tail..] + a[..head]
  }

  function After(i: nat, n: nat): (k: nat)
    requires i < n
    ensures k < n
  {
    if i + 1 == n then 0 else i + 1
  }

  lemma PutRefines<T>(a: seq<T>, head: nat, tail: nat, full: bool, item: T)
    requires head < |a| && tail < |a| && (full ==> head == tail)
    ensures var (h, t) := (After(head, |a|), if full then After(tail, |a|) else tail);
            Ring(a[head := item], h, t, h == t) == Pushed(Ring(a, head, tail, full), |a|, item)
  {
    var (b, h) := (a[head := item], After(head, |a|));
    if full {
      assert (a[head..] + a[..head])[1..] == a[head + 1..] + a[..head];
      assert a[head + 1..] + a[..head] + [item] == b[h..] + b[..h];
    } else if tail <= head {
      assert a[tail..head] + [item] == b[tail..head + 1];
    } else {
      assert a[tail..] + a[..head] + [item] == b[tail..] + b[..h];
    }
  }

  class CircularBuffer<T> {
    const buffer: array<T>
    const blank: T                       // a default-constructed element
    var head: nat
    var tail: nat
    var full: bool

    ghost predicate Valid() reads this {
      head < buffer.Length && tail < buffer.Length && (full ==> head == tail)
    }

    ghost function Contents(): seq<T>
      requires Valid()
      reads this, buffer
    {
      Ring(buffer[..], head, tail, full)
    }

    /** `getSize`. */
    function Size(): (n: nat)
      requires Valid()
      reads this, buffer
      ensures n == |Contents()| <= buffer.Length
    {
      if full then buffer.Length else if head >= tail then head - tail else buffer.Length + head - tail
    }

    constructor (capacity: nat, blank: T)
      requires 0 < capacity < 0x1_0000
      ensures Valid() && Contents() == [] && buffer.Length == capacity && this.blank == blank && fresh(buffer)
    {
      buffer := new T[capacity](_ => blank);
      this.blank := blank;
      head, tail, full := 0, 0, false;
    }

    method Put(item: T)
      requires Valid()
      modifies this, buffer
      ensures Valid() && Contents() == Pushed(old(Contents()), buffer.Length, item)
    {
      hide Ring, Pushed;
      NextIndex(head, buffer.Length);
      NextIndex(tail, buffer.Length);
      PutRefines(buffer[..], head, tail, full, item);
      buffer[head] := item;
      assert buffer[..] == old(buffer[..])[head := item];
      head := (head + 1) % buffer.Length;
      if full { tail := (tail + 1) % buffer.Length; }
      full := head == tail;
    }

    method Pop() returns (item: T)
      requires Valid()
      modifies this
      ensures Valid()
      ensures old(Contents()) == [] ==> item == blank && Contents() == []
      ensures old(Contents()) != [] ==> [item] + Contents() == old(Contents())
    {
      if !full && tail == head { return blank; }
      NextIndex(tail, buffer.Length);
      item := buffer[tail];
      tail := (tail + 1) % buffer.Length;
      full := false;
    }

    method Peek() returns (item: T)
      requires Valid()
      ensures item == if Contents() == [] then blank else Contents()[0]
    {
      if !full && tail == head { return blank; }
      return buffer[tail];
    }

    method Clear()
      requires Valid()
      modifies this
      ensures Valid() && Contents() == []
    {
      head, tail, full := 0, 0, false;
    }

    predicate IsEmpty()
      requires Valid()
      reads this, buffer
      ensures IsEmpty() <==> Contents() == []
    {
      !full && tail == head
    }

    predicate IsFull()
      requires Valid()
      reads this, buffer
      ensures IsFull() <==> |Contents()| == buffer.Length
    {
      full
    }
  }
}
