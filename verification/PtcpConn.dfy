/** One endpoint of a ptcp connection: the send side over the queue, and the receive side over a
    buffer that grows and is compacted.

    The operating system is an argument of the methods that call it: a `ReadResult` says what
    the next read of the socket meets, a list of `SendResult` what the successive sends do.
 */
module PtcpConn {
  import opened Words
  import opened Memory
  import opened MsgHeader
  import opened Wire
  import opened RecvBuffer
  import opened SendQueue
  import PtcpQueue

  datatype ReadResult =
    | Ready(avail: seq<byte>, limit: nat)
    | WouldBlock
    | ReadFailed
    | EndOfStream

  datatype SendResult = Accepted(n: nat) | SendAgain | SendFailed

  /** How one round of the parse loop ends. */
  datatype ParseStep = Advanced | Incomplete | TooBig

  predicate Plausible(k: ReadResult) {
    k.Ready? ==> k.avail != [] && k.limit > 0
  }

  function Min(a: int, b: int): (m: int)
    ensures m <= a && m <= b && m in {a, b}
  {
    if a < b then a else b
  }

  function Max(a: int, b: int): (m: int)
    ensures m >= a && m >= b && m in {a, b}
  {
    if a < b then b else a
  }

  /** The bytes a read of at most `n` bytes delivers: any number the kernel likes. */
  function BytesRead(k: ReadResult, n: nat): seq<byte> {
    if k.Ready? then k.avail[..Min(n, Min(k.limit, |k.avail|))] else []
  }

  /** How many sends succeed before the first that does not. */
  function Successes(script: seq<SendResult>): (i: nat)
    ensures i <= |script| && (forall k :: 0 <= k < i ==> script[k].Accepted?)
    ensures i < |script| ==> !script[i].Accepted?
  {
    if script == [] || !script[0].Accepted? then 0 else 1 + Successes(script[1..])
  }

  /** The bytes taken by successful sends; each takes at least one. */
  function BytesTaken(script: seq<SendResult>): (n: nat)
    requires forall k :: 0 <= k < |script| ==> script[k].Accepted?
    ensures n >= |script|
  {
    if script == [] then 0 else Max(script[0].n, 1) + BytesTaken(script[1..])
  }

  /** The bytes the kernel would take before the first send that does not succeed. */
  function Capacity(script: seq<SendResult>): nat {
    BytesTaken(script[..Successes(script)])
  }

  /** The first send that does not succeed fails. */
  predicate EndsInFailure(script: seq<SendResult>) {
    Successes(script) < |script| && script[Successes(script)].SendFailed?
  }

  lemma {:induction false} TakenSnoc(script: seq<SendResult>, i: nat)
    requires i < |script| && forall k :: 0 <= k <= i ==> script[k].Accepted?
    ensures BytesTaken(script[..i + 1]) == BytesTaken(script[..i]) + Max(script[i].n, 1)
  {
    if i > 0 {
      TakenSnoc(script[1..], i - 1);
      assert script[..i + 1][1..] == script[1..][..i] && script[..i][1..] == script[1..][..i - 1];
    }
  }

  /** After `i` successful sends. */
  lemma {:induction false} TakenSoFar(script: seq<SendResult>, i: nat)
    requires i <= |script| && forall k :: 0 <= k < i ==> script[k].Accepted?
    ensures i <= Successes(script) && BytesTaken(script[..i]) <= Capacity(script)
    ensures i == |script| || !script[i].Accepted? ==> i == Successes(script)
    decreases Successes(script) - i
  {
    if i < Successes(script) {
      TakenSnoc(script, i);
      TakenSoFar(script, i + 1);
    }
  }

  lemma NothingTaken(script: seq<SendResult>)
    ensures BytesTaken(script[..0]) == 0
  {
  }

  lemma AllTaken(script: seq<SendResult>, i: nat)
    requires i == Successes(script)
    ensures Capacity(script) == BytesTaken(script[..i])
  {
  }

  const STACK_SIZE: nat := 65536

  /** The part of a read that does not go straight behind the buffered bytes. */
  function ExtraSize(size: nat, r: nat, w: nat, max: nat): (e: nat)
    requires r <= w <= size <= max
    ensures e <= r + (max - size)
  {
    var allowExpand := (size - w + r) * 2 < size;
    Min(STACK_SIZE, r + if allowExpand then max - size else 0)
  }

  /** How many bytes `DoRecv` asks for, given the buffer's indices. */
  function RequestSize(size: nat, r: nat, w: nat, max: nat): nat
    requires r <= w <= size <= max
  {
    if 0 < r == w then size + ExtraSize(size, 0, 0, max)
    else size - w + ExtraSize(size, r, w, max)
  }

  /** As much as fits into the buffer besides the `w - r` live bytes, or, when less than half of it is
      free, into the largest buffer; but not more than 64 KiB beyond the free space behind them. */
  lemma RequestIsLargest(size: nat, r: nat, w: nat, max: nat)
    requires r <= w <= size <= max
    ensures var live := w - r;
      var behind := if live == 0 then size else size - w;
      var room := if 2 * (size - live) >= size then size else max;
      && live + RequestSize(size, r, w, max) <= room
      && RequestSize(size, r, w, max) <= behind + 0x1_0000
      && (live + RequestSize(size, r, w, max) == room || RequestSize(size, r, w, max) == behind + 0x1_0000)
  {
  }

  /** Every sum and product `DoRecv` forms of sizes and indices fits in 32 bits. */
  lemma SizesDoNotWrap(size: nat, r: nat, w: nat, max: nat, n: nat)
    requires r <= w <= size <= max && 2 * max < M32 && n <= RequestSize(size, r, w, max)
    ensures (size - w + r) * 2 < M32 && r + (max - size) < M32 && RequestSize(size, r, w, max) < M32
    ensures size * 2 < M32 && w - r + n + 7 < M32
  {
  }

  /** The size of a buffer that replaces one of `size` bytes and must hold `need` bytes: at least
      twice as large, but never above the configured maximum. */
  function NewSize(size: nat, need: nat, max: nat): (r: nat)
    requires size % 8 == 0 && max % 8 == 0 && size <= max && need <= max
    ensures r % 8 == 0 && need <= r <= max && size <= r
    ensures r >= 2 * size || r == max
  {
    RoundedFits(need, max);
    TwiceAligned(size);
    Min(max, Max(size * 2, Rounded(need)))
  }

  /** No smaller buffer is a multiple of 8, holds the data, and is twice as large as the old one. */
  lemma NewSizeIsLeast(size: nat, need: nat, max: nat, m: nat)
    requires size % 8 == 0 && max % 8 == 0 && size <= max && need <= max
    requires m % 8 == 0 && need <= m && 2 * size <= m
    ensures NewSize(size, need, max) <= m
  {
    RoundedFits(need, m);
  }

  /** Rounding up does not pass a multiple of 8. */
  lemma RoundedFits(need: nat, max: nat)
    requires max % 8 == 0 && need <= max
    ensures need <= Rounded(need) <= max
  {
    var m := max / 8;
    assert max == 8 * m;
    assert (need + 7) / 8 <= m;
  }

  lemma TwiceAligned(size: nat)
    requires size % 8 == 0
    ensures size * 2 % 8 == 0
  {
    var m := size / 8;
    assert size == 8 * m && size * 2 == 8 * (2 * m);
  }

  /** As long as the message at the front is incomplete and would fit into the largest buffer,
      some bytes are asked for, whatever the layout: unless the buffer was configured with
      initial size 0, and then never. */
  lemma NoReceiveDeadlock(size: nat, r: nat, w: nat, max: nat, need: nat)
    requires r <= w <= size <= max && size % 8 == 0
    requires HEADER_SIZE <= need <= max && w - r < need
    ensures RequestSize(size, r, w, max) > 0 <==> size > 0
  {
  }

  /** Bytes read into the free space behind `w` and into a side buffer, then put together in
      front of any memory `z` of sufficient length. */
  lemma Gathered(mem: seq<byte>, r: nat, w: nat, data: seq<byte>, z: seq<byte>)
    requires r <= w <= |mem| && |mem| - w <= |data|
    requires w - r + |data| <= |z|
    ensures var writable := |mem| - w;
      var full := Overwrite(mem, w, data[..writable]);
      && |full[r..]| == |mem| - r
      && Overwrite(Overwrite(z, 0, full[r..]), |mem| - r, data[writable..])[0..w - r + |data|] == mem[r..w] + data
  {
  }

  /** Acknowledging header by header. */
  lemma AcksStep(le: bool, q: Queue, rest: seq<byte>)
    requires |rest| >= HEADER_SIZE && q.CoversAll(Acks(le, rest))
    ensures var a := HeaderAt(le, rest).ackSeq;
      && q.Covers(a)
      && if Whole(le, rest) then
           var t := Acks(le, rest[Extent(le, rest)..]);
           q.Ack(a).CoversAll(t) && q.Ack(a).AckAll(t) == q.AckAll(Acks(le, rest))
         else q.Ack(a) == q.AckAll(Acks(le, rest))
  {
  }

  class PTCPConnection {
    const q: PtcpQueue.PTCPQueue
    const initSize: nat
    const maxSize: nat
    const heartbeatInterval: int
    const connectionTimeout: int
    var sockfd: int
    var fdToClose: int
    var recvbuf: array<byte>
    var writeIdx: nat
    var nextmsgIdx: nat
    var readIdx: nat
    var recvTime: int
    var sendTime: int
    var now: int
    var lastMyAck: u32
    var hbmsg: Header

    /** The bytes received since `Open`: those already passed over, the whole messages waiting,
        and the incomplete rest. */
    ghost var consumed: seq<byte>
    ghost var pre: seq<byte>
    ghost var rest: seq<byte>

    ghost function Mem(): seq<byte>
      reads `recvbuf, recvbuf
    {
      recvbuf[..]
    }

    /** The static assertions on the configuration; twice the largest buffer fits in 32 bits, so no
        sum of sizes and indices wraps. */
    ghost predicate Config()
      reads `recvbuf
    {
      && initSize % 8 == 0 && maxSize % 8 == 0 && initSize <= maxSize && 2 * maxSize < M32
      && recvbuf.Length % 8 == 0 && recvbuf.Length <= maxSize
    }

    /** The receive side between calls. */
    ghost predicate RxValid()
      reads `recvbuf, `readIdx, `nextmsgIdx, `writeIdx, `consumed, `pre, `rest, recvbuf
    {
      && Config()
      && Settled(q.hostLittle, q.wireLittle, Mem(), readIdx, nextmsgIdx, writeIdx, pre, rest)
      && Parsed(q.wireLittle, consumed) == |consumed|
      && Honest(q.wireLittle, pre)
    }

    ghost predicate Valid()
      reads `hbmsg, `recvbuf, `readIdx, `nextmsgIdx, `writeIdx, `consumed, `pre, `rest, recvbuf, q, q.blk
    {
      && RxValid()
      && q.Valid()
      && recvbuf != q.blk
      && hbmsg.size == Convert16(q.hostLittle, q.wireLittle, HEADER_SIZE)
      && hbmsg.msgType == Convert16(q.hostLittle, q.wireLittle, 0)
    }

    /** Everything received since `Open`. */
    ghost function Stream(): seq<byte>
      reads `consumed, `pre, `rest
    {
      consumed + pre + rest
    }

    /** The application messages received and not yet popped. */
    ghost function Waiting(): seq<Item>
      reads `pre
    {
      Apps(q.wireLittle, pre)
    }

    constructor (q: PtcpQueue.PTCPQueue, initSize: nat, maxSize: nat, heartbeatInterval: int, connectionTimeout: int)
      requires initSize % 8 == 0 && maxSize % 8 == 0 && initSize <= maxSize && 2 * maxSize < M32
      requires q.Valid()
      ensures Valid() && IsClosed() && fdToClose < 0
      ensures Stream() == []
      ensures this.q == q && this.initSize == initSize && this.maxSize == maxSize
    {
      this.q, this.initSize, this.maxSize := q, initSize, maxSize;
      this.heartbeatInterval, this.connectionTimeout := heartbeatInterval, connectionTimeout;
      sockfd, fdToClose := -1, -1;
      recvbuf := new byte[0];
      writeIdx, nextmsgIdx, readIdx := 0, 0, 0;
      recvTime, sendTime, now := 0, 0, 0;
      lastMyAck := 0;
      hbmsg := ConvertByteOrder(q.hostLittle, q.wireLittle, Header(HEADER_SIZE, 0, 0));
      consumed, pre, rest := [], [], [];
    }

    predicate IsClosed()
      reads `sockfd
    {
      sockfd < 0
    }

    method Close()
      modifies `sockfd
      ensures sockfd == if old(IsClosed()) then old(sockfd) else -1
    {
      if sockfd < 0 {
        return;
      }
      sockfd := -1;
    }

    // ----- Receiving

    /** The indices and the place of the data after the buffer has been rearranged: everything
        live starts at 0 and the new bytes follow.  `writeIdx` is left to the caller. */
    twostate predicate Rearranged(data: seq<byte>)
      reads this, recvbuf
    {
      && Config()
      && readIdx == 0
      && old(readIdx <= nextmsgIdx <= writeIdx <= recvbuf.Length)
      && writeIdx == old(writeIdx - readIdx) && nextmsgIdx == old(nextmsgIdx - readIdx)
      && writeIdx + |data| <= recvbuf.Length
      && Mem()[0..writeIdx + |data|] == old(Mem()[readIdx..writeIdx]) + data
    }

    /** The branch that moves the live region to the front of the buffer. */
    method ShiftDown(data: seq<byte>)
      requires Config() && readIdx <= nextmsgIdx <= writeIdx <= recvbuf.Length
      requires 0 <= |data| - (recvbuf.Length - writeIdx) <= readIdx
      modifies `writeIdx, `nextmsgIdx, `readIdx, recvbuf
      ensures Rearranged(data)
    {
      hide Overwrite, Settled, Layout;
      var size := recvbuf.Length;
      var writable := size - writeIdx;
      ghost var mem := Mem();
      CopyIn(recvbuf, writeIdx, data[..writable]);
      ghost var full := Mem();
      Gathered(mem, readIdx, writeIdx, data, full);
      MemMove(recvbuf, 0, readIdx, size - readIdx);
      assert full[readIdx..readIdx + (size - readIdx)] == full[readIdx..];
      CopyIn(recvbuf, size - readIdx, data[writable..]);
      writeIdx := writeIdx - readIdx;
      nextmsgIdx := nextmsgIdx - readIdx;
      readIdx := 0;
    }

    /** The branch that replaces the buffer by a larger one. */
    method Expand(data: seq<byte>)
      requires Config() && readIdx <= nextmsgIdx <= writeIdx <= recvbuf.Length
      requires recvbuf.Length - writeIdx + readIdx < |data|
      requires writeIdx - readIdx + |data| <= maxSize
      modifies `recvbuf, `writeIdx, `nextmsgIdx, `readIdx, recvbuf
      ensures fresh(recvbuf) && Rearranged(data)
    {
      hide Overwrite, Settled, Layout, NewSize;
      var size := recvbuf.Length;
      var writable := size - writeIdx;
      var newSize := NewSize(size, writeIdx - readIdx + |data|, maxSize);
      ghost var mem := Mem();
      CopyIn(recvbuf, writeIdx, data[..writable]);
      var newBuf := new byte[newSize];
      Gathered(mem, readIdx, writeIdx, data, newBuf[..]);
      CopyIn(newBuf, 0, recvbuf[..][readIdx..]);
      CopyIn(newBuf, size - readIdx, data[writable..]);
      recvbuf := newBuf;
      writeIdx := writeIdx - readIdx;
      nextmsgIdx := nextmsgIdx - readIdx;
      readIdx := 0;
    }

    /** A fully consumed buffer starts over at 0. */
    method Realign()
      requires RxValid()
      modifies `writeIdx, `nextmsgIdx, `readIdx
      ensures RxValid() && !(0 < readIdx == writeIdx)
      ensures writeIdx - readIdx == old(writeIdx - readIdx) && nextmsgIdx - readIdx == old(nextmsgIdx - readIdx)
      ensures Mem()[readIdx..writeIdx] == old(Mem()[readIdx..writeIdx])
      ensures readIdx <= writeIdx <= recvbuf.Length && (readIdx == old(readIdx) || readIdx == 0)
      ensures recvbuf.Length - writeIdx + ExtraSize(recvbuf.Length, readIdx, writeIdx, maxSize)
        == old(RequestSize(recvbuf.Length, readIdx, writeIdx, maxSize))
    {
      hide StoreHeader, LoadHeader;
      if readIdx > 0 && readIdx == writeIdx {
        readIdx, nextmsgIdx, writeIdx := 0, 0, 0;
      }
    }

    /** The branch in which the new bytes fit behind the old ones. */
    method StoreBehind(got: seq<byte>)
      requires readIdx <= writeIdx && writeIdx + |got| <= recvbuf.Length
      modifies recvbuf
      ensures Mem()[readIdx..writeIdx + |got|] == old(Mem()[readIdx..writeIdx]) + got
    {
      OverwriteSlice(Mem(), writeIdx, got, readIdx, writeIdx);
      OverwriteSlice(Mem(), writeIdx, got, writeIdx, writeIdx + |got|);
      CopyIn(recvbuf, writeIdx, got);
      AdjacentSlices(Mem(), readIdx, writeIdx, writeIdx + |got|);
    }

    /** Stores what one read delivered. */
    method Store(got: seq<byte>)
      requires Config() && readIdx <= nextmsgIdx <= writeIdx <= recvbuf.Length
      requires writeIdx - readIdx + |got| <= maxSize
      modifies `recvbuf, `writeIdx, `nextmsgIdx, `readIdx, recvbuf
      ensures Config() && (recvbuf == old(recvbuf) || fresh(recvbuf))
      ensures writeIdx + |got| <= recvbuf.Length && readIdx in {0, old(readIdx)}
      ensures writeIdx - readIdx == old(writeIdx - readIdx) && nextmsgIdx - readIdx == old(nextmsgIdx - readIdx)
      ensures Mem()[readIdx..writeIdx + |got|] == old(Mem()[readIdx..writeIdx]) + got
    {
      hide Rounded;
      var writable := recvbuf.Length - writeIdx;
      if |got| <= writable {
        StoreBehind(got);
      } else if |got| <= writable + readIdx {
        ShiftDown(got);
      } else {
        Expand(got);
      }
    }

    /** A read that ends the connection: an error, the end of the stream, or nothing for too long. */
    predicate Fruitless(k: ReadResult, idle: int) {
      !k.Ready? && (k.WouldBlock? ==> idle > connectionTimeout)
    }

    /** The system call and its failures: the connection is closed on any error but a fruitless
        read before the timeout. */
    method Read(k: ReadResult, want: nat) returns (got: seq<byte>)
      requires Plausible(k)
      modifies `sockfd, `recvTime
      ensures got == if old(IsClosed()) then [] else BytesRead(k, want)
      ensures sockfd == if !old(IsClosed()) && want > 0 && Fruitless(k, now - old(recvTime)) then -1 else old(sockfd)
      ensures !old(IsClosed()) && want > 0 && k.WouldBlock? ==>
        sockfd == if now - old(recvTime) <= connectionTimeout then old(sockfd) else -1
      ensures !old(IsClosed()) && want > 0 && (k.ReadFailed? || k.EndOfStream?) ==> IsClosed()
      ensures k.Ready? || want == 0 ==> sockfd == old(sockfd)
      ensures !old(IsClosed()) && k.Ready? ==> got <= k.avail && |got| == Min(want, Min(k.limit, |k.avail|))
      ensures recvTime == if got != [] then now else old(recvTime)
    {
      if want == 0 || sockfd < 0 {
        return [];
      }
      got := BytesRead(k, want);
      if got == [] {
        if !k.WouldBlock? || now - recvTime > connectionTimeout {
          Close();
        }
      } else {
        recvTime := now;
      }
    }

    /** The read and what it stores. */
    method Fetch(k: ReadResult, want: nat) returns (got: seq<byte>)
      requires RxValid() && Config() && Plausible(k) && readIdx <= writeIdx && writeIdx - readIdx + want <= maxSize
      modifies `sockfd, `recvbuf, `writeIdx, `nextmsgIdx, `readIdx, `recvTime, recvbuf
      ensures Config() && (recvbuf == old(recvbuf) || fresh(recvbuf))
      ensures got == if old(IsClosed()) then [] else BytesRead(k, want)
      ensures got != [] ==> k.Ready? && got <= k.avail
      ensures sockfd == if !old(IsClosed()) && want > 0 && Fruitless(k, now - old(recvTime)) then -1 else old(sockfd)
      ensures recvTime == if got != [] then now else old(recvTime)
      ensures writeIdx + |got| <= recvbuf.Length && readIdx in {0, old(readIdx)}
      ensures writeIdx - readIdx == old(writeIdx - readIdx) && nextmsgIdx - readIdx == old(nextmsgIdx - readIdx)
      ensures Mem()[readIdx..writeIdx + |got|] == old(Mem()[readIdx..writeIdx]) + got
      ensures got == [] ==> RxValid()
    {
      hide BytesRead, Fruitless, RxValid, Config, Plausible;
      RxBounds();
      BytesReadFit(k, want);
      got := Read(k, want);
      if got != [] {
        Store(got);
      }
    }

    /** Reads once.  The buffered bytes and the new ones end up contiguous, in order, and inside
        the buffer, whichever of the three branches is taken. */
    method DoRecv(k: ReadResult) returns (n: nat, ghost data: seq<byte>)
      requires RxValid() && Plausible(k)
      modifies `sockfd, `recvbuf, `writeIdx, `nextmsgIdx, `readIdx, `recvTime, recvbuf
      ensures Config() && (recvbuf == old(recvbuf) || fresh(recvbuf))
      ensures data == if old(IsClosed()) then []
        else BytesRead(k, old(RequestSize(recvbuf.Length, readIdx, writeIdx, maxSize)))
      ensures n == |data|
      ensures n > 0 ==> k.Ready? && data <= k.avail
      ensures var asked := old(RequestSize(recvbuf.Length, readIdx, writeIdx, maxSize)) > 0;
        sockfd == if !old(IsClosed()) && asked && Fruitless(k, now - old(recvTime)) then -1 else old(sockfd)
      ensures k.Ready? || (k.WouldBlock? && now - old(recvTime) <= connectionTimeout) ==> sockfd == old(sockfd)
      ensures !old(IsClosed()) && old(RequestSize(recvbuf.Length, readIdx, writeIdx, maxSize)) > 0 ==>
        (k.ReadFailed? || k.EndOfStream? || (k.WouldBlock? && now - old(recvTime) > connectionTimeout) ==> IsClosed())
      ensures recvTime == if n > 0 then now else old(recvTime)
      ensures writeIdx + n <= recvbuf.Length && readIdx % 8 == 0
      ensures writeIdx - readIdx == old(writeIdx - readIdx)
      ensures nextmsgIdx - readIdx == old(nextmsgIdx - readIdx)
      ensures Mem()[readIdx..writeIdx + n] == old(Mem()[readIdx..writeIdx]) + data
      ensures n == 0 ==> RxValid()
    {
      hide BytesRead, ExtraSize, RequestSize, RxValid, Config, Plausible;
      RxBounds();
      Realign();
      ConfigHolds();
      var got := Fetch(k, recvbuf.Length - writeIdx + ExtraSize(recvbuf.Length, readIdx, writeIdx, maxSize));
      n, data := |got|, got;
    }

    lemma RxBounds()
      requires RxValid()
      ensures readIdx <= nextmsgIdx <= writeIdx <= recvbuf.Length <= maxSize && readIdx % 8 == 0
    {
      hide StoreHeader, LoadHeader, View, Peek, Parsed, Honest;
    }

    lemma BytesReadFit(k: ReadResult, want: nat)
      ensures |BytesRead(k, want)| <= want
      ensures BytesRead(k, want) != [] ==> k.Ready? && BytesRead(k, want) <= k.avail
    {
    }

    // ----- Parsing

    /** The state of the parse loop.  A header is converted exactly once: the one at `nextmsgIdx`
        has been converted if and only if it was complete before this read, because no later
        message starts before the old end of the data. */
    ghost predicate Parsing(oldWriteIdx: int)
      reads `recvbuf, `readIdx, `nextmsgIdx, `writeIdx, `consumed, `pre, `rest, recvbuf
    {
      && Config()
      && Layout(q.hostLittle, q.wireLittle, Mem(), readIdx, nextmsgIdx, writeIdx, pre, rest,
                oldWriteIdx - nextmsgIdx >= HEADER_SIZE)
      && (oldWriteIdx - nextmsgIdx >= HEADER_SIZE ==>
            |rest| >= HEADER_SIZE && oldWriteIdx - nextmsgIdx < Extent(q.wireLittle, rest))
      && Parsed(q.wireLittle, consumed) == |consumed|
      && Honest(q.wireLittle, pre) && Honest(q.wireLittle, rest)
      && HeadIsApp(q.wireLittle, pre)
    }

    /** The header at `nextmsgIdx`, converted in place unless that has been done before. */
    method NextHeader(oldWriteIdx: int) returns (header: Header)
      requires Parsing(oldWriteIdx) && |rest| >= HEADER_SIZE
      modifies recvbuf
      ensures header == HeaderAt(q.wireLittle, rest)
      ensures Layout(q.hostLittle, q.wireLittle, Mem(), readIdx, nextmsgIdx, writeIdx, pre, rest, true)
    {
      hide StoreHeader, LoadHeader, ConvertByteOrder, View, Parsed, Honest, Overwrite, HeadIsApp;
      if oldWriteIdx - nextmsgIdx < HEADER_SIZE {
        header := LoadHeader(q.hostLittle, recvbuf[..][nextmsgIdx..nextmsgIdx + HEADER_SIZE]);
        header := ConvertByteOrder(q.hostLittle, q.wireLittle, header);
        ConvertInPlace(q.hostLittle, q.wireLittle, Mem(), nextmsgIdx, writeIdx, rest);
        CopyIn(recvbuf, nextmsgIdx, StoreHeader(q.hostLittle, header));
        SameFront(old(Mem()), Mem(), readIdx, nextmsgIdx);
      }
      header := LoadHeader(q.hostLittle, recvbuf[..][nextmsgIdx..nextmsgIdx + HEADER_SIZE]);
      HeaderInPlace(q.hostLittle, q.wireLittle, Mem(), nextmsgIdx, writeIdx, rest);
    }

    /** A whole message has arrived: it joins the waiting ones, or is passed over if it is a
        heartbeat and none is waiting. */
    method Advance(header: Header, oldWriteIdx: int)
      requires Config() && Whole(q.wireLittle, rest) && header == HeaderAt(q.wireLittle, rest)
      requires Layout(q.hostLittle, q.wireLittle, Mem(), readIdx, nextmsgIdx, writeIdx, pre, rest, true)
      requires oldWriteIdx - nextmsgIdx < Extent(q.wireLittle, rest)
      requires Parsed(q.wireLittle, consumed) == |consumed|
      requires Honest(q.wireLittle, pre) && Honest(q.wireLittle, rest) && HeadIsApp(q.wireLittle, pre)
      modifies `readIdx, `nextmsgIdx, `consumed, `pre, `rest
      ensures Parsing(oldWriteIdx)
      ensures Stream() == old(Stream()) && |rest| < |old(rest)|
      ensures rest == old(rest)[Extent(q.wireLittle, old(rest))..]
      ensures Apps(q.wireLittle, consumed) == old(Apps(q.wireLittle, consumed))
      ensures |consumed| >= |old(consumed)|
    {
      hide StoreHeader, HeaderAt, LoadHeader, Honest, Peek, View, HeadIsApp, Apps, Parsed, Layout;
      LayoutBounds(q.hostLittle, q.wireLittle, Mem(), readIdx, nextmsgIdx, writeIdx, pre, rest, true);
      ghost var e := Extent(q.wireLittle, rest);
      ghost var first := rest[..e];
      assert first + rest[e..] == rest;
      var msgSize := Rounded(header.size);
      if header.msgType == 0 && readIdx == nextmsgIdx {
        PassOver(q.hostLittle, q.wireLittle, Mem(), nextmsgIdx, writeIdx, pre, rest);
        ConsumeHeartbeat(q.wireLittle, consumed, rest);
        HonestRest(q.wireLittle, rest);
        ConcatAssociative(consumed, first, rest[e..]);
        readIdx := readIdx + msgSize;
        consumed := consumed + first;
      } else {
        JoinWaiting(q.hostLittle, q.wireLittle, Mem(), readIdx, nextmsgIdx, writeIdx, pre, rest);
        ConcatAssociative(consumed, pre, first);
        ConcatAssociative(consumed + pre, first, rest[e..]);
        pre := pre + first;
      }
      nextmsgIdx := nextmsgIdx + msgSize;
      rest := rest[e..];
    }

    /** The message being received is larger than the buffer may become. */
    ghost predicate Oversized()
      reads `rest
    {
      |rest| >= HEADER_SIZE && Extent(q.wireLittle, rest) > maxSize
    }

    /** One round of the parse loop. */
    method ParseOne(oldWriteIdx: int) returns (step: ParseStep)
      requires Parsing(oldWriteIdx) && |rest| >= HEADER_SIZE
      requires q.Valid() && recvbuf != q.blk && q.model.CoversAll(Acks(q.wireLittle, rest))
      modifies `sockfd, `readIdx, `nextmsgIdx, `consumed, `pre, `rest, recvbuf, q
      ensures q.Valid() && Stream() == old(Stream())
      ensures Apps(q.wireLittle, consumed) == old(Apps(q.wireLittle, consumed))
      ensures step.Advanced? ==>
        && Parsing(oldWriteIdx) && |rest| < old(|rest|) && sockfd == old(sockfd)
        && q.model.CoversAll(Acks(q.wireLittle, rest))
        && q.model.AckAll(Acks(q.wireLittle, rest)) == old(q.model.AckAll(Acks(q.wireLittle, rest)))
      ensures !step.Advanced? ==>
        && RxValid() && HeadIsApp(q.wireLittle, pre) && rest == old(rest)
        && q.model == old(q.model.AckAll(Acks(q.wireLittle, rest)))
      ensures step.TooBig? ==> Oversized() && IsClosed()
      ensures step.Incomplete? ==> !Oversized() && sockfd == old(sockfd)
    {
      hide StoreHeader, LoadHeader, Honest, Peek, View, HeadIsApp, Apps, Parsed, Acks, Queue.AckAll, Queue.CoversAll,
        Queue.Covers, Queue.Ack, Layout, PtcpQueue.PTCPQueue.Valid;
      AcksStep(q.wireLittle, q.model, rest);
      var header := NextHeader(oldWriteIdx);
      LayoutBounds(q.hostLittle, q.wireLittle, Mem(), readIdx, nextmsgIdx, writeIdx, pre, rest, true);
      q.AckSent(header.ackSeq);
      var msgSize := Rounded(header.size);
      if msgSize > maxSize {
        Close();
        return TooBig;
      }
      if writeIdx - nextmsgIdx < msgSize {
        return Incomplete;
      }
      SizePositive();
      Advance(header, oldWriteIdx);
      return Advanced;
    }

    lemma SizePositive()
      requires Honest(q.wireLittle, rest) && |rest| >= HEADER_SIZE
      ensures Extent(q.wireLittle, rest) > 0
    {
      hide StoreHeader, LoadHeader;
    }

    /** The parse loop: every header that has become visible is acknowledged to the send queue,
        and every whole message joins the waiting ones. */
    method ParseReceived(oldWriteIdx: int) returns (tooBig: bool)
      requires Parsing(oldWriteIdx)
      requires q.Valid() && recvbuf != q.blk && q.model.CoversAll(Acks(q.wireLittle, rest))
      modifies `sockfd, `readIdx, `nextmsgIdx, `consumed, `pre, `rest, recvbuf, q
      ensures q.Valid() && q.model == old(q.model.AckAll(Acks(q.wireLittle, rest)))
      ensures RxValid() && HeadIsApp(q.wireLittle, pre)
      ensures Stream() == old(Stream())
      ensures Apps(q.wireLittle, consumed) == old(Apps(q.wireLittle, consumed))
      ensures tooBig <==> Oversized()
      ensures if tooBig then IsClosed() else sockfd == old(sockfd)
    {
      hide StoreHeader, LoadHeader, Honest, View, HeadIsApp, Apps, Parsed;
      while writeIdx - nextmsgIdx >= HEADER_SIZE
        invariant Parsing(oldWriteIdx) && q.Valid()
        invariant q.model.CoversAll(Acks(q.wireLittle, rest))
        invariant q.model.AckAll(Acks(q.wireLittle, rest)) == old(q.model.AckAll(Acks(q.wireLittle, rest)))
        invariant Stream() == old(Stream()) && sockfd == old(sockfd)
        invariant Apps(q.wireLittle, consumed) == old(Apps(q.wireLittle, consumed))
        decreases |rest|
      {
        var step := ParseOne(oldWriteIdx);
        if step.TooBig? {
          return true;
        }
        if step.Incomplete? {
          return false;
        }
      }
      return false;
    }

    lemma HeartbeatExtent(s: seq<byte>)
      requires |s| >= HEADER_SIZE && HonestHeader(HeaderAt(q.wireLittle, s)) && HeaderAt(q.wireLittle, s).msgType == 0
      ensures Extent(q.wireLittle, s) == HEADER_SIZE
    {
      hide StoreHeader, LoadHeader;
    }

    /** Passes over one heartbeat waiting at the front. */
    method PassHeartbeat()
      requires RxValid() && pre != [] && HeaderAt(q.wireLittle, pre).msgType == 0
      modifies `readIdx, `consumed, `pre
      ensures RxValid() && Stream() == old(Stream()) && |pre| < old(|pre|)
      ensures Apps(q.wireLittle, consumed) == old(Apps(q.wireLittle, consumed)) && Waiting() == old(Waiting())
    {
      hide StoreHeader, LoadHeader, Honest, Apps, Items, Layout, Extent, Parsed;
      ghost var le := q.wireLittle;
      RxFacts();
      LayoutFirst(q.hostLittle, le, Mem(), readIdx, nextmsgIdx, writeIdx, pre, rest, true);
      AfterFirst(le, pre);
      ConsumeApps(le, consumed, pre);
      ConsumeFirst(le, consumed, pre);
      ghost var e := Extent(le, pre);
      assert pre[..e] + pre[e..] == pre;
      ConcatAssociative(consumed, pre[..e], pre[e..]);
      assert e == HEADER_SIZE by { HeartbeatExtent(pre); }
      readIdx := readIdx + HEADER_SIZE;
      consumed, pre := consumed + pre[..e], pre[e..];
    }

    /** The type of the message at `readIdx`. */
    method HeadType() returns (msgType: u16)
      requires RxValid() && readIdx != nextmsgIdx
      ensures pre != [] && Whole(q.wireLittle, pre) && msgType == HeaderAt(q.wireLittle, pre).msgType
    {
      hide StoreHeader, LoadHeader, Honest, Peek, View;
      LayoutFirst(q.hostLittle, q.wireLittle, Mem(), readIdx, nextmsgIdx, writeIdx, pre, rest, true);
      msgType := LoadHeader(q.hostLittle, recvbuf[..][readIdx..readIdx + HEADER_SIZE]).msgType;
    }

    /** The loop at the start of `Front`: heartbeats are passed over, and the first other message
        is returned at once unless it was returned before and not popped since. */
    method SkipHeartbeats() returns (found: bool)
      requires RxValid()
      modifies `readIdx, `consumed, `pre, `lastMyAck
      ensures RxValid() && Stream() == old(Stream()) && rest == old(rest)
      ensures Apps(q.wireLittle, consumed) == old(Apps(q.wireLittle, consumed)) && Waiting() == old(Waiting())
      ensures HeadIsApp(q.wireLittle, pre) && (found ==> pre != [])
      ensures found <==> Waiting() != [] && old(lastMyAck) != q.ackSeqNum
      ensures lastMyAck == if found then q.ackSeqNum else old(lastMyAck)
    {
      hide StoreHeader, LoadHeader, Honest, Peek, View, Apps, Settled;
      while nextmsgIdx != readIdx
        invariant RxValid() && Stream() == old(Stream()) && lastMyAck == old(lastMyAck)
        invariant Apps(q.wireLittle, consumed) == old(Apps(q.wireLittle, consumed)) && Waiting() == old(Waiting())
        decreases |pre|
      {
        var msgType := HeadType();
        if msgType == 0 {
          PassHeartbeat();
          continue;
        }
        HeadWaits();
        if lastMyAck == q.ackSeqNum {
          return false;
        }
        lastMyAck := q.ackSeqNum;
        return true;
      }
      RxFacts();
      HeadWaits();
      return false;
    }

    /** With no heartbeat in front, something stands at the read index if and only if an application
        message waits. */
    lemma HeadWaits()
      requires RxValid() && HeadIsApp(q.wireLittle, pre)
      ensures pre == [] <==> Waiting() == []
    {
      hide StoreHeader, LoadHeader, Honest, Apps, Parsed, HeadIsApp;
      RxFacts();
      HeadIsFirstApp(q.wireLittle, pre);
    }

    lemma RxFacts()
      requires RxValid()
      ensures readIdx == nextmsgIdx <==> pre == []
      ensures readIdx <= nextmsgIdx <= writeIdx <= recvbuf.Length
      ensures |pre| == nextmsgIdx - readIdx && Parsed(q.wireLittle, pre) == |pre|
      ensures |rest| == writeIdx - nextmsgIdx && !Whole(q.wireLittle, rest)
    {
      hide StoreHeader, LoadHeader;
    }

    /** What the peer may send, seen from here: honest headers, and no acknowledgement of anything
        not completely sent. */
    ghost predicate HonestInput(k: ReadResult)
      reads `rest, q`model
    {
      k.Ready? ==>
        Honest(q.wireLittle, rest + k.avail) && q.model.CoversAll(Acks(q.wireLittle, rest + k.avail))
    }

    /** The bytes just read become part of the stream; parsing can start. */
    method Receive(n: nat, ghost data: seq<byte>, ghost k: ReadResult) returns (oldWriteIdx: nat)
      requires Config() && n == |data| && k.Ready? && data <= k.avail
      requires writeIdx + n <= recvbuf.Length
      requires Layout(q.hostLittle, q.wireLittle, Mem(), readIdx, nextmsgIdx, writeIdx + n, pre, rest + data,
                      |rest| >= HEADER_SIZE)
      requires |rest| == writeIdx - nextmsgIdx && !Whole(q.wireLittle, rest)
      requires Parsed(q.wireLittle, consumed) == |consumed| && Honest(q.wireLittle, pre)
      requires HeadIsApp(q.wireLittle, pre) && HonestInput(k)
      modifies `writeIdx, `rest
      ensures oldWriteIdx == old(writeIdx) && writeIdx == old(writeIdx) + n && rest == old(rest) + data
      ensures Parsing(oldWriteIdx) && q.model.CoversAll(Acks(q.wireLittle, rest))
    {
      hide StoreHeader, LoadHeader, Queue.CoversAll, Acks, Honest, Parsed, HeadIsApp, Layout, Extent, HeaderAt;
      ghost var tail := k.avail[|data|..];
      assert rest + k.avail == rest + data + tail;
      AcksOfPrefix(q.wireLittle, rest + data, tail);
      HonestPrefix(q.wireLittle, rest + data, tail);
      CoversPrefix(q.model, Acks(q.wireLittle, rest + data), Acks(q.wireLittle, rest + k.avail));
      HonestPrefix(q.wireLittle, rest, data);
      if |rest| >= HEADER_SIZE {
        WholeAppend(q.wireLittle, rest, data);
        SizePositive();
      }
      oldWriteIdx := writeIdx;
      writeIdx := writeIdx + n;
      rest := rest + data;
    }

    /** `DoRecv` followed by the update of `writeIdx`. */
    method ReceiveSome(k: ReadResult) returns (n: nat, ghost data: seq<byte>)
      requires RxValid() && Plausible(k) && HonestInput(k) && HeadIsApp(q.wireLittle, pre)
      modifies `sockfd, `recvbuf, `writeIdx, `nextmsgIdx, `readIdx, `recvTime, `rest, recvbuf
      ensures recvbuf == old(recvbuf) || fresh(recvbuf)
      ensures n == |data| && rest == old(rest) + data
      ensures data == if old(IsClosed()) then []
        else BytesRead(k, old(RequestSize(recvbuf.Length, readIdx, writeIdx, maxSize)))
      ensures var asked := old(RequestSize(recvbuf.Length, readIdx, writeIdx, maxSize)) > 0;
        sockfd == if !old(IsClosed()) && asked && Fruitless(k, now - old(recvTime)) then -1 else old(sockfd)
      ensures recvTime == if n > 0 then now else old(recvTime)
      ensures n > 0 ==> k.Ready? && data <= k.avail && !old(IsClosed()) && sockfd == old(sockfd) && n <= writeIdx
      ensures n > 0 ==> Parsing(writeIdx - n) && q.model.CoversAll(Acks(q.wireLittle, rest))
      ensures n == 0 ==> RxValid()
    {
      hide StoreHeader, LoadHeader, Honest, Acks, HeadIsApp, Parsed, Queue.CoversAll, Items, BytesRead, Layout,
        Settled, Extent, Whole, RequestSize;
      ghost var mem, r, nx, w := Mem(), readIdx, nextmsgIdx, writeIdx;
      RxFacts();
      assert Settled(q.hostLittle, q.wireLittle, mem, r, nx, w, pre, rest);
      n, data := DoRecv(k);
      assert rest + [] == rest;
      if n > 0 {
        LayoutMove(q.hostLittle, q.wireLittle, mem, r, nx, w, pre, rest, Mem(), readIdx, data);
        var oldWriteIdx := Receive(n, data, k);
      }
    }

    /** The message `it` can be read at `readIdx`: header in host byte order, then the body. */
    ghost predicate InPlace(it: Item)
      reads `recvbuf, `readIdx, recvbuf
    {
      && readIdx + HEADER_SIZE + |it.body| <= recvbuf.Length
      && LoadHeader(q.hostLittle, Mem()[readIdx..readIdx + HEADER_SIZE]) == it.header
      && Mem()[readIdx + HEADER_SIZE..readIdx + HEADER_SIZE + |it.body|] == it.body
    }

    lemma HeadInPlace()
      requires RxValid() && HeadIsApp(q.wireLittle, pre)
      ensures pre != [] <==> Waiting() != []
      ensures pre != [] ==> InPlace(Waiting()[0]) && Whole(q.wireLittle, pre)
      ensures Apps(q.wireLittle, Stream()) == Apps(q.wireLittle, consumed) + Waiting()
    {
      hide StoreHeader, LoadHeader, Honest, Apps, Parsed, HeadIsApp, Layout, Items;
      RxFacts();
      HeadIsFirstApp(q.wireLittle, pre);
      if pre != [] {
        LayoutFirst(q.hostLittle, q.wireLittle, Mem(), readIdx, nextmsgIdx, writeIdx, pre, rest, true);
      }
      AppsOfStream(q.wireLittle, consumed, pre, rest);
    }

    /** Every header in `s` has been acknowledged to a queue that was `before`. */
    ghost predicate Acknowledged(before: Queue, s: seq<byte>)
      reads q`model
    {
      before.CoversAll(Acks(q.wireLittle, s)) && q.model == before.AckAll(Acks(q.wireLittle, s))
    }

    /** The second half of `Front`: one read, and the messages it brings. */
    method Poll(k: ReadResult) returns (tooBig: bool, ghost data: seq<byte>)
      requires Valid() && Plausible(k) && HonestInput(k) && HeadIsApp(q.wireLittle, pre)
      modifies this, recvbuf, q
      ensures Valid() && (recvbuf == old(recvbuf) || fresh(recvbuf))
      ensures HeadIsApp(q.wireLittle, pre)
      ensures data == if old(IsClosed()) then []
        else BytesRead(k, old(RequestSize(recvbuf.Length, readIdx, writeIdx, maxSize)))
      ensures var asked := old(RequestSize(recvbuf.Length, readIdx, writeIdx, maxSize)) > 0;
        IsClosed() <==> old(IsClosed()) || tooBig || (asked && Fruitless(k, old(now - recvTime)))
      ensures !old(IsClosed()) && old(RequestSize(recvbuf.Length, readIdx, writeIdx, maxSize)) > 0 ==>
        && (k.Ready? ==> data != [])
        && (k.ReadFailed? || k.EndOfStream? ==> IsClosed())
        && (k.WouldBlock? && old(now - recvTime) > connectionTimeout ==> IsClosed())
      ensures k.WouldBlock? && old(now - recvTime <= connectionTimeout && !IsClosed()) ==> sockfd == old(sockfd)
      ensures k.Ready? && !old(IsClosed()) && IsClosed() ==> tooBig
      ensures now == old(now) && recvTime == if data != [] then now else old(recvTime)
      ensures data != [] ==> k.Ready? && data <= k.avail && !old(IsClosed())
      ensures Stream() == old(Stream()) + data
      ensures data == [] ==> q.model == old(q.model)
      ensures data != [] ==> Acknowledged(old(q.model), old(rest) + data)
      ensures Apps(q.wireLittle, consumed) == old(Apps(q.wireLittle, consumed))
      ensures tooBig <==> data != [] && Oversized()
      ensures sockfd == old(sockfd) || IsClosed()
      ensures fdToClose == old(fdToClose)
    {
      hide Apps, HeadIsApp, Parsed, Queue.CoversAll, Queue.AckAll, Layout, Acks, Honest, RxValid, Items,
        PtcpQueue.PTCPQueue.Valid, RequestSize, Extent;
      tooBig := false;
      var n;
      n, data := ReceiveSome(k);
      ConcatAssociative(consumed + pre, old(rest), data);
      if n > 0 {
        tooBig := ParseReceived(writeIdx - n);
      } else {
        assert Stream() == old(Stream());
      }
    }

    /** Nothing is waiting, and the message being received has a size and fits in the largest buffer. */
    ghost predicate Hungry()
      reads `pre, `rest, `recvbuf
    {
      && Waiting() == [] && recvbuf.Length > 0
      && (|rest| >= HEADER_SIZE ==> 0 < Extent(q.wireLittle, rest) <= maxSize)
    }

    /** `Front` goes on to read: no message waits that it has not returned since the last pop, and there
        is free space, or nothing waits at all. */
    ghost predicate Asks()
      reads `pre, `rest, `recvbuf, `writeIdx, `lastMyAck, q`ackSeqNum
    {
      && (Waiting() == [] || lastMyAck == q.ackSeqNum)
      && (writeIdx < recvbuf.Length || Hungry())
    }

    /** A hungry connection always asks for bytes: there is no deadlock, whatever the layout of the
        buffer. */
    lemma HungryAsks()
      requires RxValid() && HeadIsApp(q.wireLittle, pre) && Hungry()
      ensures readIdx <= writeIdx <= recvbuf.Length <= maxSize
      ensures RequestSize(recvbuf.Length, readIdx, writeIdx, maxSize) > 0
    {
      hide StoreHeader, LoadHeader, Honest, Apps, Parsed, HeadIsApp, RequestSize;
      RxFacts();
      HeadWaits();
      var need := if |rest| < HEADER_SIZE then HEADER_SIZE else Extent(q.wireLittle, rest);
      NoReceiveDeadlock(recvbuf.Length, readIdx, writeIdx, maxSize, need);
    }

    lemma AsksForBytes()
      requires RxValid() && HeadIsApp(q.wireLittle, pre)
      ensures readIdx <= writeIdx <= recvbuf.Length <= maxSize
      ensures writeIdx < recvbuf.Length || Hungry() ==>
        RequestSize(recvbuf.Length, readIdx, writeIdx, maxSize) > 0
    {
      hide StoreHeader, LoadHeader, Honest, Parsed, Hungry;
      RxFacts();
      RxBounds();
      if Hungry() {
        HungryAsks();
      }
    }

    /** The first application message not yet popped, if one is completely there.  Whatever the
        pieces in which the stream arrives, the messages passed over and waiting are exactly those
        of the whole stream received so far, without heartbeats, and every header newly visible
        has been acknowledged to the send queue. */
    method Front(k: ReadResult) returns (found: bool, ghost data: seq<byte>)
      requires Valid() && Plausible(k) && HonestInput(k)
      modifies this, recvbuf, q
      ensures Valid() && (recvbuf == old(recvbuf) || fresh(recvbuf))
      ensures data != [] ==> k.Ready? && data <= k.avail && !old(IsClosed())
      ensures Stream() == old(Stream()) + data
      ensures data == [] ==> q.model == old(q.model)
      ensures data != [] ==> Acknowledged(old(q.model), old(rest) + data)
      ensures Apps(q.wireLittle, consumed) == old(Apps(q.wireLittle, consumed))
      ensures Apps(q.wireLittle, Stream()) == Apps(q.wireLittle, consumed) + Waiting()
      ensures HeadIsApp(q.wireLittle, pre)
      ensures found <==> Waiting() != [] && !(data != [] && Oversized())
      ensures found ==> pre != [] && InPlace(Waiting()[0])
      ensures old(Waiting() != [] && lastMyAck != q.ackSeqNum) ==> found && data == [] && sockfd == old(sockfd)
      ensures old(Asks() && !IsClosed()) ==>
        && (k.Ready? ==> data != [])
        && (k.ReadFailed? || k.EndOfStream? ==> IsClosed())
        && (k.WouldBlock? && old(now - recvTime) > connectionTimeout ==> IsClosed())
      ensures k.WouldBlock? && old(now - recvTime <= connectionTimeout && !IsClosed()) ==> sockfd == old(sockfd)
      ensures k.Ready? && !old(IsClosed()) && IsClosed() ==>
        |rest| >= HEADER_SIZE && Extent(q.wireLittle, rest) > maxSize
      ensures data != [] && |rest| >= HEADER_SIZE && Extent(q.wireLittle, rest) > maxSize ==> IsClosed() && !found
      ensures now == old(now) && recvTime == if data != [] then now else old(recvTime)
      ensures !old(IsClosed()) && IsClosed() ==> (data != [] && Oversized()) || Fruitless(k, old(now - recvTime))
      ensures data != [] && Oversized() ==> IsClosed()
      ensures sockfd == old(sockfd) || IsClosed()
      ensures fdToClose == old(fdToClose)
    {
      hide Apps, Acks, HeadIsApp, Parsed, Queue.CoversAll, Queue.AckAll, InPlace, RxValid, PtcpQueue.PTCPQueue.Valid,
        Extent, Items, RequestSize, BytesRead, Fruitless, Plausible;
      data := [];
      found := SkipHeartbeats();
      if found {
        HeadInPlace();
        return;
      }
      AsksForBytes();
      var tooBig;
      tooBig, data := Poll(k);
      HeadInPlace();
      RxFacts();
      found := !tooBig && readIdx != nextmsgIdx;
    }

    /** The application has consumed the message `Front` returned. */
    method Pop()
      requires Valid() && pre != [] && HeadIsApp(q.wireLittle, pre)
      modifies `readIdx, `consumed, `pre, q`ackSeqNum, q`model
      ensures Valid() && Stream() == old(Stream()) && rest == old(rest)
      ensures old(Waiting()) != [] && Waiting() == old(Waiting())[1..]
      ensures Apps(q.wireLittle, consumed) == old(Apps(q.wireLittle, consumed)) + [old(Waiting())[0]]
      ensures q.model == old(q.model).Pop()
    {
      hide StoreHeader, LoadHeader, Honest, Apps, Items, Layout, Extent, HeadIsApp;
      StepOver();
      q.CountPop();
    }

    method StepOver()
      requires RxValid() && pre != [] && HeadIsApp(q.wireLittle, pre)
      modifies `readIdx, `consumed, `pre
      ensures RxValid() && Stream() == old(Stream())
      ensures old(Waiting()) != [] && Waiting() == old(Waiting())[1..]
      ensures Apps(q.wireLittle, consumed) == old(Apps(q.wireLittle, consumed)) + [old(Waiting())[0]]
    {
      hide StoreHeader, LoadHeader, Honest, Apps, Items, Layout, Parsed;
      ghost var le := q.wireLittle;
      RxFacts();
      LayoutFirst(q.hostLittle, le, Mem(), readIdx, nextmsgIdx, writeIdx, pre, rest, true);
      AfterFirst(le, pre);
      ConsumeApps(le, consumed, pre);
      ConsumeFirst(le, consumed, pre);
      ghost var e := Extent(le, pre);
      assert pre[..e] + pre[e..] == pre;
      ConcatAssociative(consumed, pre[..e], pre[e..]);
      var header := LoadHeader(q.hostLittle, recvbuf[..][readIdx..readIdx + HEADER_SIZE]);
      readIdx := readIdx + Rounded(header.size);
      consumed, pre := consumed + pre[..e], pre[e..];
    }

    // ----- Sending

    /** The unsent bytes of the queue go out as far as the kernel takes them.  While the connection
        stays open, whole blocks are sent, and the result is false only if nothing was pending. */
    method SendPending(script: seq<SendResult>) returns (pending: bool, emitted: seq<byte>)
      requires Valid()
      modifies `sockfd, `sendTime, q
      ensures Valid()
      ensures SentAsTaken(old(q.Sendable()), old(IsClosed()), script, emitted)
      ensures pending <==> !IsClosed() && old(q.Sendable()) != []
      ensures !old(IsClosed()) && Capacity(script) < |old(q.Sendable())| && EndsInFailure(script) ==>
        IsClosed() && !pending && |emitted| == Capacity(script)
      ensures !old(IsClosed()) && |old(q.Sendable())| <= Capacity(script) ==>
        !IsClosed() && emitted == old(q.Sendable())
      ensures q.model == if pending then old(q.model).Sendout(|emitted| / 8) else old(q.model)
      ensures sendTime == if pending && emitted != [] then now else old(sendTime)
      ensures sockfd == old(sockfd) || IsClosed()
    {
      hide StoreHeader, LoadHeader, Image, Images, RxValid, Capacity, EndsInFailure, Wrap;
      emitted := [];
      if sockfd < 0 {
        return false, [];
      }
      var p := q.Sendable();
      if p == [] {
        return false, [];
      }
      UnsentBlocks();
      emitted := SendUnsent(p, script);
      return sockfd >= 0, emitted;
    }

    /** The sends themselves, and what they do to the queue. */
    method SendUnsent(p: seq<byte>, script: seq<SendResult>) returns (emitted: seq<byte>)
      requires q.Valid() && recvbuf != q.blk && !IsClosed()
      requires p != [] && |p| == 8 * (q.writeIdx - q.sendIdx)
      modifies `sockfd, `sendTime, q
      ensures q.Valid() && SentAsTaken(p, false, script, emitted)
      ensures q.model == if IsClosed() then old(q.model) else old(q.model).Sendout(|emitted| / 8)
      ensures sendTime == if !IsClosed() && emitted != [] then now else old(sendTime)
      ensures sockfd == old(sockfd) || IsClosed()
    {
      hide StoreHeader, LoadHeader, Image, Images, Capacity, EndsInFailure, Wrap, PtcpQueue.PTCPQueue.Valid;
      var failed: bool;
      failed, emitted := SendLoop(p, script);
      if failed {
        Close();
      } else if |emitted| > 0 {
        sendTime := now;
        q.Sendout(|emitted| / 8);
      }
    }

    /** The unsent bytes are whole blocks. */
    lemma UnsentBlocks()
      requires q.Valid()
      ensures |q.Sendable()| == 8 * (q.writeIdx - q.sendIdx)
    {
      hide StoreHeader, LoadHeader, Image, Images;
    }

    /** Of the bytes `unsent`, exactly what the kernel takes has been emitted; an error closes the
        connection, anything else leaves whole blocks. */
    ghost predicate SentAsTaken(unsent: seq<byte>, wasClosed: bool, script: seq<SendResult>, emitted: seq<byte>)
      reads `sockfd
    {
      && emitted <= unsent
      && (wasClosed ==> emitted == [] && IsClosed())
      && (!wasClosed ==>
            && |emitted| == Min(|unsent|, Capacity(script))
            && (IsClosed() <==>
                  && Capacity(script) < |unsent|
                  && (EndsInFailure(script) || (|unsent| - Capacity(script)) % 8 != 0)))
      && (!IsClosed() ==> |emitted| % 8 == 0)
    }

    /** The loop of `SendPending`: it fails on an error and on a stop inside a block. */
    method SendLoop(p: seq<byte>, script: seq<SendResult>) returns (failed: bool, emitted: seq<byte>)
      requires p != [] && |p| % 8 == 0
      ensures emitted == p[..Min(|p|, Capacity(script))]
      ensures failed <==>
        Capacity(script) < |p| && (EndsInFailure(script) || (|p| - Capacity(script)) % 8 != 0)
    {
      hide Capacity, Successes, BytesTaken;
      emitted := [];
      var i := 0;
      NothingTaken(script);
      while true
        invariant 0 <= i <= |script| && forall k :: 0 <= k < i ==> script[k].Accepted?
        invariant |emitted| < |p| && emitted == p[..|emitted|] && |emitted| == BytesTaken(script[..i])
        decreases |p| - |emitted|
      {
        TakenSoFar(script, i);
        var size := |p| - |emitted|;
        var result := if i < |script| then script[i] else SendAgain;
        if !result.Accepted? {
          assert |emitted| == Capacity(script) by { AllTaken(script, i); }
          return result.SendFailed? || size % 8 != 0, emitted;
        }
        TakenSnoc(script, i);
        TakenSoFar(script, i + 1);
        emitted := p[..|emitted| + Min(Max(result.n, 1), size)];
        if |emitted| == |p| {
          return false, emitted;
        }
        i := i + 1;
      }
    }

    /** The heartbeat message in memory, with the current acknowledgement, is its wire image. */
    method StampHeartbeat() returns (bytes: seq<byte>)
      requires Valid()
      modifies `hbmsg
      ensures Valid() && bytes == Image(q.wireLittle, Heartbeat(q.model.ack))
    {
      hide StoreHeader, LoadHeader, Convert16, Images, Settled;
      hbmsg := hbmsg.(ackSeq := Convert32(q.hostLittle, q.wireLittle, q.ackSeqNum));
      var header := HeaderOf(Heartbeat(q.model.ack));
      WireFormIsHostIndependent(q.hostLittle, q.wireLittle, header);
      assert hbmsg == ConvertByteOrder(q.hostLittle, q.wireLittle, header);
      bytes := StoreHeader(q.hostLittle, hbmsg);
      assert Image(q.wireLittle, Heartbeat(q.model.ack)) == bytes + [] + [];
    }

    /** Of a heartbeat, exactly what the kernel takes has been emitted; an error or a part closes the
        connection. */
    ghost predicate BeatAsTaken(wasClosed: bool, result: SendResult, emitted: seq<byte>)
      reads `sockfd, q`model
    {
      && emitted <= Image(q.wireLittle, Heartbeat(q.model.ack))
      && |emitted| == (if wasClosed || !result.Accepted? then 0 else Min(Max(result.n, 1), HEADER_SIZE))
      && (IsClosed() <==> wasClosed || result.SendFailed? || (result.Accepted? && |emitted| != HEADER_SIZE))
    }

    method SendHeartbeat(result: SendResult) returns (emitted: seq<byte>)
      requires Valid()
      modifies `hbmsg, `sockfd, `sendTime
      ensures Valid() && (sockfd == old(sockfd) || IsClosed())
      ensures BeatAsTaken(old(IsClosed()), result, emitted)
      ensures sendTime == if |emitted| == HEADER_SIZE then now else old(sendTime)
    {
      hide StoreHeader, LoadHeader, Convert16, Images, Image, RxValid;
      emitted := [];
      var bytes := StampHeartbeat();
      if sockfd < 0 || result.SendAgain? {
        return;
      }
      if result.SendFailed? {
        Close();
        return;
      }
      emitted := bytes[..Min(Max(result.n, 1), HEADER_SIZE)];
      if |emitted| != HEADER_SIZE {
        Close();
        return;
      }
      sendTime := now;
    }

    /** The heartbeat goes out only when the queue has nothing unsent, so it stands at a message
        boundary; a heartbeat sent in part closes the connection. */
    method SendHB(now': int, script: seq<SendResult>, result: SendResult) returns (emitted: seq<byte>)
      requires Valid()
      modifies `now, `sockfd, `sendTime, `hbmsg, q
      ensures Valid() && (sockfd == old(sockfd) || IsClosed()) && now == now'
      ensures now - old(sendTime) < heartbeatInterval ==>
        emitted == [] && sockfd == old(sockfd) && q.model == old(q.model)
      ensures now - old(sendTime) >= heartbeatInterval && old(q.Sendable()) != [] ==>
        && SentAsTaken(old(q.Sendable()), old(IsClosed()), script, emitted)
        && q.model == if IsClosed() then old(q.model) else old(q.model).Sendout(|emitted| / 8)
      ensures now - old(sendTime) >= heartbeatInterval && old(q.Sendable()) == [] ==>
        BeatAsTaken(old(IsClosed()), result, emitted) && q.model == old(q.model)
      ensures now - old(sendTime) >= heartbeatInterval && old(q.Sendable()) == [] && !old(IsClosed()) ==>
        && (result.SendFailed? ==> IsClosed() && emitted == [])
        && (result.SendAgain? ==> sockfd == old(sockfd) && emitted == [])
        && (result.Accepted? && result.n >= 8 ==>
              sockfd == old(sockfd) && emitted == Image(q.wireLittle, Heartbeat(q.model.ack)))
        && (result.Accepted? && result.n < 8 ==> IsClosed() && |emitted| < 8)
      ensures sendTime == if !IsClosed() && emitted != [] then now else old(sendTime)
    {
      hide StoreHeader, LoadHeader, Images, Image, RxValid, Convert16, Capacity, EndsInFailure,
        PtcpQueue.PTCPQueue.Tied;
      emitted := [];
      now := now';
      if now - sendTime < heartbeatInterval {
        return;
      }
      var pending;
      pending, emitted := SendPending(script);
      if pending {
        return;
      }
      var hb := SendHeartbeat(result);
      assert emitted + [] == emitted && [] + hb == hb;
      emitted := emitted + hb;
    }

    /** Appends the allocated message and tries to send. */
    method Push(ghost size: int, script: seq<SendResult>) returns (emitted: seq<byte>)
      requires Valid() && q.Reserved(size)
      modifies `sockfd, `sendTime, q, q.blk
      ensures Valid() && (sockfd == old(sockfd) || IsClosed())
      ensures var m := old(q.Pending(size)); var pushed := old(q.model).Push(m.msgType, m.payload, m.pad);
        && ValidMsgs(pushed.msgs) && 0 <= pushed.sent && 8 * pushed.sent <= |Images(q.wireLittle, pushed.msgs)|
        && SentAsTaken(Images(q.wireLittle, pushed.msgs)[8 * pushed.sent..], old(IsClosed()), script, emitted)
        && q.model == if IsClosed() then pushed else pushed.Sendout(|emitted| / 8)
    {
      hide StoreHeader, LoadHeader, Image, Images, RxValid, SentAsTaken, Wrap;
      q.Push(size);
      var pending;
      pending, emitted := SendPending(script);
    }

    // ----- Life cycle

    /** The receive side starts over; the first time a buffer is allocated. */
    method ResetReceive()
      requires Config()
      modifies `writeIdx, `readIdx, `nextmsgIdx, `consumed, `pre, `rest, `recvbuf
      ensures RxValid() && Stream() == [] && (recvbuf == old(recvbuf) || fresh(recvbuf))
      ensures recvbuf.Length == if old(recvbuf.Length) == 0 then initSize else old(recvbuf.Length)
    {
      hide StoreHeader, LoadHeader, Peek;
      writeIdx, readIdx, nextmsgIdx := 0, 0, 0;
      consumed, pre, rest := [], [], [];
      if recvbuf.Length == 0 {
        recvbuf := new byte[initSize];
      }
    }

    method Attach(fd: int, now': int)
      requires Config() && fd >= 0
      modifies this
      ensures RxValid() && Stream() == [] && (recvbuf == old(recvbuf) || fresh(recvbuf))
      ensures recvbuf.Length == if old(recvbuf.Length) == 0 then initSize else old(recvbuf.Length)
      ensures sockfd == fd && fdToClose == fd && hbmsg == old(hbmsg)
      ensures recvTime == now' && sendTime == now' && now == now'
    {
      hide RxValid, Config;
      sockfd, fdToClose := fd, fd;
      ResetReceive();
      recvTime, sendTime, now := now', now', now';
    }

    lemma ConfigHolds()
      requires RxValid()
      ensures Config()
    {
    }

    /** A new connection: the receive side starts over, everything the peer has not acknowledged
        is to be sent again from its first byte. */
    method Open(fd: int, remoteAckSeq: u32, now': int, script: seq<SendResult>) returns (emitted: seq<byte>)
      requires Valid() && sockfd < 0 && fdToClose < 0 && fd >= 0
      requires q.model.CanAck(remoteAckSeq)
      modifies this, q
      ensures Valid() && fdToClose == fd && (sockfd == fd || IsClosed())
      ensures recvTime == now' && sendTime == now' && now == now'
      ensures Stream() == [] && (recvbuf == old(recvbuf) || fresh(recvbuf))
      ensures recvbuf.Length == if old(recvbuf.Length) == 0 then initSize else old(recvbuf.Length)
      ensures var acked := old(q.model).LoginAck(remoteAckSeq);
        && ValidMsgs(acked.msgs) && SentAsTaken(Images(q.wireLittle, acked.msgs), false, script, emitted)
        && q.model == if IsClosed() then acked else acked.Sendout(|emitted| / 8)
    {
      hide StoreHeader, LoadHeader, Images, RxValid, Diff, Wrap, TotalBlocks, Queue.CanAck, Queue.Ack, Convert16;
      ConfigHolds();
      Attach(fd, now');
      q.LoginAck(remoteAckSeq);
      assert Images(q.wireLittle, q.model.msgs)[0..] == Images(q.wireLittle, q.model.msgs);
      var pending;
      pending, emitted := SendPending(script);
    }

    method RequestClose()
      modifies `sockfd
      ensures IsClosed() && (old(IsClosed()) ==> sockfd == old(sockfd))
    {
      Close();
    }

    /** Gives the descriptor back, once, after the connection has been closed. */
    method TryCloseFd() returns (closed: bool)
      modifies `fdToClose
      ensures closed <==> IsClosed() && old(fdToClose) >= 0
      ensures fdToClose == if closed then -1 else old(fdToClose)
    {
      if sockfd < 0 && fdToClose >= 0 {
        fdToClose := -1;
        return true;
      }
      return false;
    }
  }
}
