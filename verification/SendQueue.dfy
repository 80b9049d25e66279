/** The send queue as a value: what the block array and its indices stand for.

    `base` and `ack` are the unbounded numbers behind `read_seq_num_` and `ack_seq_num_`.
    `sent` is `send_idx_ - read_idx_`, in blocks; it is negative only between the two statements
    of a login acknowledgement.
 */
module SendQueue {
  import opened Words
  import opened Wire

  datatype Queue = Queue(msgs: seq<Msg>, base: nat, sent: int, ack: nat) {

    /** The number of the next message to be pushed. */
    function End(): nat {
      base + |msgs|
    }

    function Push(msgType: u16, payload: seq<byte>, pad: seq<byte>): Queue {
      this.(msgs := msgs + [Msg(msgType, ack, payload, pad)])
    }

    function Pop(): Queue {
      this.(ack := ack + 1)
    }

    function Sendout(blocks: int): Queue {
      this.(sent := sent + blocks)
    }

    /** The queue without its first `d` messages.  An emptied queue starts over at block 0. */
    function Drop(d: nat): Queue
      requires d <= |msgs|
    {
      Queue(msgs[d..], base + d, if d == |msgs| then 0 else sent - TotalBlocks(msgs[..d]), ack)
    }

    /** The peer acknowledges no message that was never pushed. */
    predicate CanAck(a: u32) {
      Diff(a, Wrap(base)) <= |msgs|
    }

    /** The effect of a 32-bit acknowledgement: an old one is ignored. */
    function Ack(a: u32): Queue
      requires CanAck(a)
    {
      var d := Diff(a, Wrap(base));
      if d <= 0 then this else Drop(d)
    }

    function LoginAck(a: u32): Queue
      requires CanAck(a)
    {
      Ack(a).(sent := 0)
    }

    /** The peer acknowledges only messages that have been sent to it completely. */
    predicate Covers(a: u32) {
      CanAck(a) && var d := Diff(a, Wrap(base)); d > 0 ==> TotalBlocks(msgs[..d]) <= sent
    }

    /** Every one of a series of acknowledgements is honest when its turn comes. */
    predicate CoversAll(acks: seq<u32>)
      decreases |acks|
    {
      acks == [] || (Covers(acks[0]) && Ack(acks[0]).CoversAll(acks[1..]))
    }

    function AckAll(acks: seq<u32>): Queue
      requires CoversAll(acks)
      decreases |acks|
    {
      if acks == [] then this else Ack(acks[0]).AckAll(acks[1..])
    }

    /** The effect of an unbounded acknowledgement number. */
    function DropTo(n: nat): Queue
      requires n <= End()
    {
      if n <= base then this else Drop(n - base)
    }
  }

  /** The signed comparison calls the stamp of `m` newer than `ack`. */
  predicate TooNew(ack: nat, m: Msg) {
    Diff(Wrap(ack), Wrap(m.stamp)) < 0
  }

  predicate NoneTooNew(ack: nat, ms: seq<Msg>) {
    forall i :: 0 <= i < |ms| ==> !TooNew(ack, ms[i])
  }

  /** A stamp less than 2^31 away is called newer if and only if it is. */
  lemma TooNewExact(ack: nat, m: Msg)
    requires -HALF32 <= ack - m.stamp < HALF32
    ensures TooNew(ack, m) <==> m.stamp > ack
  {
    DiffExact(ack, m.stamp);
  }

  const EMPTY_QUEUE := Queue([], 0, 0, 0)

  /** Acknowledging sent messages never moves the read position past the send position. */
  lemma AckKeepsSent(q: Queue, a: u32)
    requires q.Covers(a) && q.sent >= 0
    ensures q.CanAck(a) && q.Ack(a).sent >= 0
  {
  }

  lemma {:induction false} CoversPrefix(q: Queue, a: seq<u32>, b: seq<u32>)
    requires a <= b && q.CoversAll(b)
    ensures q.CoversAll(a)
    decreases |a|
  {
    if a != [] {
      CoversPrefix(q.Ack(a[0]), a[1..], b[1..]);
    }
  }

  /** The wrapped comparison is exact: an acknowledgement `n` that is less than 2^31 away from
      the queue's base acts as the unbounded number does. */
  lemma AckIsExact(q: Queue, n: nat)
    requires q.base - HALF32 <= n <= q.End() && n - q.base < HALF32
    ensures q.CanAck(Wrap(n)) && q.Ack(Wrap(n)) == q.DropTo(n)
    ensures q.Covers(Wrap(n)) <==> n <= q.base || TotalBlocks(q.msgs[..n - q.base]) <= q.sent
  {
    DiffExact(n, q.base);
  }

  lemma TotalBlocksCut(ms: seq<Msg>, d: nat, e: nat)
    requires d <= e <= |ms|
    ensures TotalBlocks(ms[..e]) == TotalBlocks(ms[..d]) + TotalBlocks(ms[d..][..e - d])
  {
    assert ms[..d] + ms[d..][..e - d] == ms[..e];
    TotalBlocksAppend(ms[..d], ms[d..][..e - d]);
  }

  /** Dropping up to one message and then up to a later one is dropping up to the later one. */
  lemma DropToTwice(q: Queue, a: nat, b: nat)
    requires a <= b <= q.End()
    ensures q.DropTo(a).End() == q.End() && q.DropTo(a).DropTo(b) == q.DropTo(b)
  {
    if q.base < a < b {
      var d, e := a - q.base, b - q.base;
      assert q.msgs[d..][e - d..] == q.msgs[e..];
      TotalBlocksCut(q.msgs, d, e);
    }
  }

  /** What has been sent beyond a dropped prefix is still counted as sent. */
  lemma SentAfterDrop(q: Queue, a: nat, b: nat)
    requires q.base <= a <= b <= q.End()
    requires TotalBlocks(q.msgs[..b - q.base]) <= q.sent
    ensures TotalBlocks(q.msgs[..a - q.base]) <= q.sent
    ensures var q' := q.DropTo(a); q'.base <= b && TotalBlocks(q'.msgs[..b - q'.base]) <= q'.sent
  {
    TotalBlocksCut(q.msgs, a - q.base, b - q.base);
    if q.base < a && a == b {
      assert q.DropTo(a).msgs[..0] == [];
    }
  }

  /** Every message before number `n` is in the queue no more, or completely sent. */
  ghost predicate SentBefore(q: Queue, n: nat) {
    n <= q.End() && (q.base < n ==> TotalBlocks(q.msgs[..n - q.base]) <= q.sent)
  }

  lemma SentBeforeAfterDrop(q: Queue, a: nat, last: nat)
    requires a <= last && q.sent >= 0 && SentBefore(q, last)
    ensures a <= q.base || TotalBlocks(q.msgs[..a - q.base]) <= q.sent
    ensures SentBefore(q.DropTo(a), last) && q.DropTo(a).sent >= 0
  {
    if a > q.base {
      SentAfterDrop(q, a, last);
    }
  }

  /** A series of acknowledgements that never goes back acts as its last one. */
  lemma {:induction false} AckAllIsExact(q: Queue, acks: seq<nat>)
    requires |q.msgs| < HALF32 && q.sent >= 0
    requires forall i :: 0 <= i < |acks| ==> q.base - HALF32 <= acks[i] <= q.End()
    requires forall i, j :: 0 <= i < j < |acks| ==> acks[i] <= acks[j]
    requires acks != [] ==> SentBefore(q, acks[|acks| - 1])
    ensures q.CoversAll(WrapAll(acks))
    ensures q.AckAll(WrapAll(acks)) == if acks == [] then q else q.DropTo(acks[|acks| - 1])
    decreases |acks|
  {
    hide TotalBlocks;
    if acks != [] {
      var a, rest, last := acks[0], acks[1..], acks[|acks| - 1];
      AckIsExact(q, a);
      assert WrapAll(acks)[1..] == WrapAll(rest);
      assert WrapAll(acks)[0] == Wrap(a);
      SentBeforeAfterDrop(q, a, last);
      AckAllIsExact(q.DropTo(a), rest);
      if rest != [] {
        DropToTwice(q, a, last);
      }
    }
  }
}
