/** Fixed-width unsigned integers and the wrap-around comparisons the protocol relies on.

    Sequence numbers are `uint32_t` in memory and on the wire.  The code orders two of them
    by casting their difference to `int`.  This module states what that cast computes and
    when it agrees with the order of the unbounded numbers behind the wrapped ones.
 */
module Words {

  const M16: int := 0x1_0000
  const M32: int := 0x1_0000_0000
  const HALF32: int := 0x8000_0000

  type byte = x: int | 0 <= x < 0x100
  type u16 = x: int | 0 <= x < 0x1_0000
  type u32 = x: int | 0 <= x < 0x1_0000_0000

  /** The `uint32_t` that holds `n`. */
  function Wrap(n: int): u32 {
    n % 0x1_0000_0000
  }

  /** `static_cast<int>(a - b)` on `uint32_t` operands. */
  function Diff(a: u32, b: u32): int {
    var d := Wrap(a - b);
    if d < HALF32 then d else d - M32
  }

  /** A number is its wrapped value and a multiple of 2^32 ... */
  lemma WrapSplit(n: int) returns (k: int)
    ensures n == Wrap(n) + k * 0x1_0000_0000
  {
    k := n / 0x1_0000_0000;
  }

  /** ... and the only one below 2^32 that differs from it by such a multiple. */
  lemma WrapUnique(n: int, w: int, k: int)
    requires n == w + k * 0x1_0000_0000 && 0 <= w < 0x1_0000_0000
    ensures Wrap(n) == w
  {
  }

  lemma WrapOfDifference(a: int, b: int)
    ensures Wrap(Wrap(a) - Wrap(b)) == Wrap(a - b)
  {
    hide Wrap;
    var ka := WrapSplit(a);
    var kb := WrapSplit(b);
    var k := WrapSplit(a - b);
    WrapUnique(Wrap(a) - Wrap(b), Wrap(a - b), k - ka + kb);
  }

  /** The signed difference of two wrapped numbers is their true difference exactly when that
      difference fits in an `int`. */
  lemma DiffExact(a: int, b: int)
    ensures Diff(Wrap(a), Wrap(b)) == a - b <==> -HALF32 <= a - b < HALF32
  {
    WrapOfDifference(a, b);
    hide Wrap;
    if 0 <= a - b < HALF32 {
      WrapUnique(a - b, a - b, 0);
    } else if -HALF32 <= a - b < 0 {
      WrapUnique(a - b, a - b + M32, -1);
    }
  }

  lemma WrapAddWrap(a: int, b: int)
    ensures Wrap(Wrap(a) + b) == Wrap(a + b)
  {
    hide Wrap;
    var ka := WrapSplit(a);
    var k := WrapSplit(a + b);
    WrapUnique(Wrap(a) + b, Wrap(a + b), k - ka);
  }

  /** The server's test that `ackSeq` lies in the send window `[seqStart, seqEnd]`. */
  predicate CheckAckInQueue(ackSeq: u32, seqStart: u32, seqEnd: u32) {
    Diff(ackSeq, seqStart) >= 0 && Diff(seqEnd, ackSeq) >= 0
  }

  /** Membership in the window that runs from `seqStart` up to `seqEnd` on the 32-bit circle. */
  predicate InCircularWindow(ackSeq: u32, seqStart: u32, seqEnd: u32) {
    (ackSeq - seqStart) % 0x1_0000_0000 <= (seqEnd - seqStart) % 0x1_0000_0000
  }

  /** The two sign tests decide window membership for every ack if and only if the window is
      shorter than 2^31. */
  lemma CheckAckDecidesMembership(seqStart: u32, seqEnd: u32)
    ensures (forall a: u32 :: CheckAckInQueue(a, seqStart, seqEnd) <==> InCircularWindow(a, seqStart, seqEnd))
      <==> (seqEnd - seqStart) % M32 < HALF32
  {
    if (seqEnd - seqStart) % M32 >= HALF32 {
      assert InCircularWindow(seqStart, seqStart, seqEnd);
      assert !CheckAckInQueue(seqStart, seqStart, seqEnd);
    }
  }

  /** For an unbounded window `[start, end]` and an unbounded ack that is not off by 2^31 or
      more, the test is membership in the integer interval. */
  lemma CheckAckExact(ack: int, start: int, end: int)
    requires -HALF32 <= ack - start < HALF32
    requires -HALF32 <= end - ack < HALF32
    ensures CheckAckInQueue(Wrap(ack), Wrap(start), Wrap(end)) <==> start <= ack <= end
  {
    DiffExact(ack, start);
    DiffExact(end, ack);
  }

  /** An ack inside a window shorter than 2^31 is at most the window's length past its start. */
  lemma CheckedDistance(ack: u32, seqStart: u32, n: nat)
    requires n < HALF32 && CheckAckInQueue(ack, seqStart, Wrap(seqStart + n))
    ensures Diff(ack, seqStart) <= n
  {
    assert Wrap(seqStart + n) == if seqStart + n < M32 then seqStart + n else seqStart + n - M32;
  }
}
