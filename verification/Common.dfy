/** Vocabulary every other module uses. */
module Common {

  /** An 8-bit value (`uint8_t`, or one element of a Python `bytes`). */
  type Byte = b: int | 0 <= b < 256

  datatype Option<+T> = None | Some(value: T)

  function Min(a: int, b: int): int { if a <= b then a else b }
  function Max(a: int, b: int): int { if a <= b then b else a }

  /** A sequence with one element left out. */
  function Without<T>(s: seq<T>, i: nat): seq<T>
    requires i < |s|
  {
    s[..i] + s[i + 1..]
  }

  lemma Associative<T>(a: seq<T>, b: seq<T>, c: seq<T>) ensures (a + b) + c == a + (b + c) {}

  const TWO_32: int := 0x1_0000_0000

  /** `Time::elapsedSince` on a 32-bit clock: the subtraction wraps. */
  function ElapsedSince(now: int, timer: int): (e: int)
    ensures 0 <= e < TWO_32
  {
    (now - timer) % TWO_32
  }

  /** `Time::hasElapsed`: strictly more than `duration` has passed. */
  predicate HasElapsed(now: int, timer: int, duration: int) {
    ElapsedSince(now, timer) > duration
  }
}
