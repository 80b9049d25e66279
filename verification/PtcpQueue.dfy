/** The persistent send queue over its block array.

    `blk` is the mmapped array of 8-byte blocks, kept as bytes; block `i` is
    `blk[8 * i..8 * i + 8]`.  The ghost field `model` is the queue the memory stands for.
 */
module PtcpQueue {
  import opened Words
  import opened Memory
  import opened MsgHeader
  import opened Wire
  import opened SendQueue

  // ----- A message under construction, as bytes at offset `at` of the memory

  ghost function SizeAt(little: bool, mem: seq<byte>, at: nat): u16
    requires at + HEADER_SIZE <= |mem|
  {
    Load16(little, mem[at..at + 2])
  }

  ghost function TypeAt(little: bool, mem: seq<byte>, at: nat): u16
    requires at + HEADER_SIZE <= |mem|
  {
    Load16(little, mem[at + 2..at + 4])
  }

  /** Room for `size` bytes, header included, with the size field already in place. */
  ghost predicate ReservedAt(little: bool, mem: seq<byte>, at: nat, size: int) {
    && HEADER_SIZE <= size < M16
    && at + 8 * Blocks(size) <= |mem|
    && SizeAt(little, mem, at) == size
  }

  /** The message that a push with acknowledgement `stamp` makes of the bytes at `at`. */
  ghost function MsgAt(little: bool, mem: seq<byte>, at: nat, size: int, stamp: nat): (m: Msg)
    requires ReservedAt(little, mem, at, size)
    ensures ValidMsg(m) && MsgBlocks(m) == Blocks(size)
  {
    Msg(TypeAt(little, mem, at), stamp, mem[at + HEADER_SIZE..at + size], mem[at + size..at + 8 * Blocks(size)])
  }

  lemma ReadHeader(little: bool, mem: seq<byte>, at: nat)
    requires at + HEADER_SIZE <= |mem|
    ensures LoadHeader(little, mem[at..at + HEADER_SIZE]).size == SizeAt(little, mem, at)
    ensures LoadHeader(little, mem[at..at + HEADER_SIZE]).msgType == TypeAt(little, mem, at)
  {
    SubSlice(mem, at, at + HEADER_SIZE, 0, 2);
    SubSlice(mem, at, at + HEADER_SIZE, 2, 4);
  }

  /** Writing the converted header turns the bytes at `at` into the image of the message. */
  lemma StampedImage(little: bool, le: bool, mem: seq<byte>, at: nat, size: int, stamp: nat)
    requires ReservedAt(little, mem, at, size)
    ensures var m := MsgAt(little, mem, at, size, stamp);
      Overwrite(mem, at, StoreHeader(le, HeaderOf(m)))[at..at + 8 * Blocks(size)] == Image(le, m)
  {
    hide StoreHeader, LoadHeader, Overwrite;
    var m := MsgAt(little, mem, at, size, stamp);
    var h := StoreHeader(le, HeaderOf(m));
    var e := at + 8 * Blocks(size);
    var r := Overwrite(mem, at, h);
    OverwriteSlice(mem, at, h, at, at + HEADER_SIZE);
    OverwriteSlice(mem, at, h, at + HEADER_SIZE, e);
    assert r[at..e] == r[at..at + HEADER_SIZE] + r[at + HEADER_SIZE..e];
    assert mem[at + HEADER_SIZE..e] == m.payload + m.pad;
    ConcatAssociative(h, m.payload, m.pad);
  }

  /** The header of an allocation, completed with the acknowledgement, is that of the message. */
  lemma ReservedHeader(little: bool, mem: seq<byte>, at: nat, size: int, stamp: nat)
    requires ReservedAt(little, mem, at, size)
    ensures var h := LoadHeader(little, mem[at..at + HEADER_SIZE]);
      h.size == size && h.(ackSeq := Wrap(stamp)) == HeaderOf(MsgAt(little, mem, at, size, stamp))
  {
    hide LoadHeader, Wrap, ValidMsg;
    ReadHeader(little, mem, at);
  }

  lemma StampedBytes(little: bool, le: bool, mem: seq<byte>, at: nat, size: int, stamp: nat)
    requires ReservedAt(little, mem, at, size)
    ensures var m := MsgAt(little, mem, at, size, stamp);
      var r := Overwrite(mem, at, StoreHeader(little, ConvertByteOrder(little, le, HeaderOf(m))));
      r[at..at + 8 * Blocks(size)] == Image(le, m) && r[..at] == mem[..at]
  {
    hide StoreHeader, ConvertByteOrder, Overwrite, Image, MsgAt, HeaderOf, ValidMsg;
    var m := MsgAt(little, mem, at, size, stamp);
    WireFormIsHostIndependent(little, le, HeaderOf(m));
    StampedImage(little, le, mem, at, size, stamp);
    OverwriteSlice(mem, at, StoreHeader(le, HeaderOf(m)), 0, at);
  }

  lemma SizedBytes(little: bool, mem: seq<byte>, at: nat, size: u16)
    requires HEADER_SIZE <= size && at + 8 * Blocks(size) <= |mem|
    ensures var r := Overwrite(mem, at, Store16(little, size));
      ReservedAt(little, r, at, size) && r[..at] == mem[..at]
  {
  }

  lemma ImagesSnoc(le: bool, ms: seq<Msg>, m: Msg)
    requires ValidMsgs(ms) && ValidMsg(m)
    ensures ValidMsgs(ms + [m])
    ensures Images(le, ms + [m]) == Images(le, ms) + Image(le, m)
    ensures TotalBlocks(ms + [m]) == TotalBlocks(ms) + MsgBlocks(m)
  {
    hide StoreHeader, LoadHeader, Image;
    ImagesAppend(le, ms, [m]);
    TotalBlocksAppend(ms, [m]);
    assert Images(le, [m]) == Image(le, m) + [];
  }

  lemma TotalBlocksSnoc(ms: seq<Msg>, k: nat)
    requires k < |ms|
    ensures TotalBlocks(ms[..k + 1]) == TotalBlocks(ms[..k]) + MsgBlocks(ms[k])
  {
    assert ms[..k + 1] == ms[..k] + [ms[k]];
    TotalBlocksAppend(ms[..k], [ms[k]]);
  }

  lemma FilledBytes(little: bool, mem: seq<byte>, at: nat, msgType: u16, payload: seq<byte>, stamp: nat)
    requires ReservedAt(little, mem, at, HEADER_SIZE + |payload|)
    ensures var size := HEADER_SIZE + |payload|;
      var r := Overwrite(Overwrite(mem, at + 2, Store16(little, msgType)), at + HEADER_SIZE, payload);
      && ReservedAt(little, r, at, size)
      && MsgAt(little, r, at, size, stamp).msgType == msgType
      && MsgAt(little, r, at, size, stamp).payload == payload
      && r[..at] == mem[..at]
  {
    var b := Store16(little, msgType);
    var r1 := Overwrite(mem, at + 2, b);
    OverwriteSlice(mem, at + 2, b, at, at + 2);
    OverwriteSlice(mem, at + 2, b, at + 2, at + 4);
    OverwriteSlice(mem, at + 2, b, 0, at);
    OverwriteSlice(r1, at + HEADER_SIZE, payload, at, at + 2);
    OverwriteSlice(r1, at + HEADER_SIZE, payload, at + 2, at + 4);
    OverwriteSlice(r1, at + HEADER_SIZE, payload, at + HEADER_SIZE, at + HEADER_SIZE + |payload|);
    OverwriteSlice(r1, at + HEADER_SIZE, payload, 0, at);
    LoadStore16(little, msgType);
  }

  /** Bytes `lo..hi` hold the messages `ms`. */
  ghost predicate Holds(le: bool, mem: seq<byte>, lo: nat, hi: nat, ms: seq<Msg>) {
    lo <= hi <= |mem| && ValidMsgs(ms) && mem[lo..hi] == Images(le, ms)
  }

  /** Bytes written behind `hi` do not matter. */
  lemma HoldsBefore(le: bool, mem: seq<byte>, mem': seq<byte>, lo: nat, hi: nat, ms: seq<Msg>)
    requires Holds(le, mem, lo, hi, ms) && hi <= |mem'| && mem'[..hi] == mem[..hi]
    ensures Holds(le, mem', lo, hi, ms)
  {
    hide Images;
    SameFront(mem, mem', lo, hi);
  }

  lemma HoldsSnoc(le: bool, mem: seq<byte>, lo: nat, hi: nat, ms: seq<Msg>, m: Msg)
    requires Holds(le, mem, lo, hi, ms) && ValidMsg(m)
    requires hi + 8 * MsgBlocks(m) <= |mem| && mem[hi..hi + 8 * MsgBlocks(m)] == Image(le, m)
    ensures Holds(le, mem, lo, hi + 8 * MsgBlocks(m), ms + [m])
    ensures TotalBlocks(ms + [m]) == TotalBlocks(ms) + MsgBlocks(m)
  {
    hide StoreHeader, LoadHeader, Image, Images, ValidMsg, TotalBlocks;
    ImagesSnoc(le, ms, m);
    AdjacentSlices(mem, lo, hi, hi + 8 * MsgBlocks(m));
  }

  /** The header at the front of a run of messages gives the length of the first of them. */
  lemma FrontMessage(little: bool, le: bool, mem: seq<byte>, lo: nat, hi: nat, ms: seq<Msg>)
    requires Holds(le, mem, lo, hi, ms) && ms != []
    ensures lo + HEADER_SIZE <= lo + 8 * MsgBlocks(ms[0]) <= hi <= |mem|
    ensures ConvertByteOrder(little, le, LoadHeader(little, mem[lo..lo + HEADER_SIZE])) == HeaderOf(ms[0])
    ensures Holds(le, mem, lo + 8 * MsgBlocks(ms[0]), hi, ms[1..])
  {
    hide StoreHeader, LoadHeader, ConvertByteOrder, Image;
    var s := mem[lo..hi];
    var e := 8 * MsgBlocks(ms[0]);
    assert s[..e] == Image(le, ms[0]);
    ImageParses(le, ms[0], s);
    SubSlice(mem, lo, hi, 0, HEADER_SIZE);
    SubSlice(mem, lo, hi, e, hi - lo);
    ConvertReadsWire(little, le, s[..HEADER_SIZE]);
  }

  /** Every stamp in the queue is less than 2^31 away from its acknowledgement. */
  ghost predicate StampsNear(q: Queue) {
    forall i :: 0 <= i < |q.msgs| ==> -HALF32 <= q.ack - q.msgs[i].stamp < HALF32
  }

  lemma StampsDecide(q: Queue)
    ensures StampsNear(q) ==>
      (NoneTooNew(q.ack, q.msgs) <==> forall i :: 0 <= i < |q.msgs| ==> q.msgs[i].stamp <= q.ack)
  {
    hide TooNew;
    if StampsNear(q) {
      forall i | 0 <= i < |q.msgs|
        ensures TooNew(q.ack, q.msgs[i]) <==> q.msgs[i].stamp > q.ack
      {
        TooNewExact(q.ack, q.msgs[i]);
      }
    }
  }

  class PTCPQueue {
    const blkCnt: nat
    const hostLittle: bool
    const wireLittle: bool
    const blk: array<byte>
    var writeIdx: nat
    var readIdx: nat
    var sendIdx: nat
    var readSeqNum: u32
    var ackSeqNum: u32
    ghost var model: Queue

    ghost function Mem(): seq<byte>
      reads blk
    {
      blk[..]
    }

    /** The memory stands for `model`. */
    ghost predicate Tied()
      reads this, blk
    {
      && blk.Length == 8 * blkCnt
      && 8 * blkCnt < M32
      && readIdx <= writeIdx <= blkCnt
      && sendIdx <= writeIdx
      && model.sent == sendIdx - readIdx
      && Holds(wireLittle, Mem(), 8 * readIdx, 8 * writeIdx, model.msgs)
      && readSeqNum == Wrap(model.base)
      && ackSeqNum == Wrap(model.ack)
    }

    /** The invariant between operations: `readIdx <= sendIdx <= writeIdx` as well. */
    ghost predicate Valid()
      reads this, blk
    {
      Tied() && readIdx <= sendIdx
    }

    /** An allocation of `size` bytes, header included, stands at `writeIdx`. */
    ghost predicate Reserved(size: int)
      reads this, blk
    {
      ReservedAt(hostLittle, Mem(), 8 * writeIdx, size)
    }

    /** The message a push would append now. */
    ghost function Pending(size: int): Msg
      requires Reserved(size)
      reads this, blk
    {
      MsgAt(hostLittle, Mem(), 8 * writeIdx, size, model.ack)
    }

    constructor (blkCnt: nat, hostLittle: bool, wireLittle: bool)
      requires 8 * blkCnt < M32
      ensures Valid() && fresh(blk)
      ensures this.blkCnt == blkCnt && this.hostLittle == hostLittle && this.wireLittle == wireLittle
      ensures model == EMPTY_QUEUE
    {
      this.blkCnt, this.hostLittle, this.wireLittle := blkCnt, hostLittle, wireLittle;
      blk := new byte[8 * blkCnt];
      writeIdx, readIdx, sendIdx := 0, 0, 0;
      readSeqNum, ackSeqNum := 0, 0;
      model := EMPTY_QUEUE;
    }

    /** Placement new over the mapped file: the indices and counters are reset, the blocks stay. */
    method Reset()
      requires blk.Length == 8 * blkCnt && 8 * blkCnt < M32
      modifies this
      ensures Valid() && model == EMPTY_QUEUE
    {
      writeIdx, readIdx, sendIdx := 0, 0, 0;
      readSeqNum, ackSeqNum := 0, 0;
      model := EMPTY_QUEUE;
    }

    /** Moves the live blocks to the front; `sendIdx` may point into the middle of a message. */
    method Compact()
      requires Valid()
      modifies this, blk
      ensures Valid() && model == old(model)
      ensures readIdx == 0 && writeIdx == old(writeIdx - readIdx)
    {
      hide StoreHeader, LoadHeader, Image, Images, ValidMsgs, Wrap, Overwrite, TotalBlocks;
      ghost var live := Mem()[8 * readIdx..8 * writeIdx];
      MemMove(blk, 0, 8 * readIdx, 8 * (writeIdx - readIdx));
      assert Mem() == Overwrite(old(Mem()), 0, live);
      OverwriteSlice(old(Mem()), 0, live, 0, |live|);
      writeIdx := writeIdx - readIdx;
      sendIdx := sendIdx - readIdx;
      readIdx := 0;
    }

    method WriteSize(total: u16)
      requires Valid()
      requires HEADER_SIZE <= total && writeIdx + Blocks(total) <= blkCnt
      modifies blk
      ensures Valid() && Reserved(total)
    {
      CopyIn(blk, 8 * writeIdx, Store16(hostLittle, total));
      SizedBytes(hostLittle, old(Mem()), 8 * writeIdx, total);
      HoldsBefore(wireLittle, old(Mem()), Mem(), 8 * readIdx, 8 * writeIdx, model.msgs);
    }

    /** Room for a message with a payload of `size` bytes, found if and only if the blocks in use
        and the new ones fit together.  Compaction moves blocks but not what the queue means. */
    method Alloc(size: u16) returns (ok: bool)
      requires Valid()
      requires size + HEADER_SIZE < M16
      modifies this, blk
      ensures Valid() && model == old(model)
      ensures ok <==> TotalBlocks(model.msgs) + Blocks(size + HEADER_SIZE) <= blkCnt
      ensures ok ==> Reserved(size + HEADER_SIZE)
      ensures !ok ==> unchanged(this) && unchanged(blk)
    {
      var total := size + HEADER_SIZE;
      var blkSz := Blocks(total);
      var availSz := blkCnt - writeIdx;
      assert TotalBlocks(model.msgs) == writeIdx - readIdx;
      if blkSz > availSz {
        if blkSz > availSz + readIdx {
          return false;
        }
        Compact();
      }
      WriteSize(total);
      return true;
    }

    /** What the caller of `Alloc` does with the header it got: the message type and the payload
        are written in place. */
    method Fill(msgType: u16, payload: seq<byte>)
      requires Valid() && Reserved(HEADER_SIZE + |payload|)
      modifies blk
      ensures Valid() && Reserved(HEADER_SIZE + |payload|)
      ensures Pending(HEADER_SIZE + |payload|).msgType == msgType
      ensures Pending(HEADER_SIZE + |payload|).payload == payload
    {
      hide StoreHeader, Holds, Wrap, SizeAt, MsgAt, Overwrite;
      FilledBytes(hostLittle, Mem(), 8 * writeIdx, msgType, payload, model.ack);
      CopyIn(blk, 8 * writeIdx + 2, Store16(hostLittle, msgType));
      CopyIn(blk, 8 * writeIdx + HEADER_SIZE, payload);
      HoldsBefore(wireLittle, old(Mem()), Mem(), 8 * readIdx, 8 * writeIdx, model.msgs);
    }

    /** Everything `Push` does before its last store.  A crash at this point leaves the queue as
        it was. */
    method StampHeader(ghost size: int) returns (blkSz: nat)
      requires Valid() && Reserved(size)
      modifies blk
      ensures Valid() && blkSz == Blocks(size)
      ensures Mem()[8 * writeIdx..8 * (writeIdx + blkSz)] == Image(wireLittle, old(Pending(size)))
    {
      hide StoreHeader, LoadHeader, ConvertByteOrder, HeaderOf, Image, Overwrite, MsgAt, SizeAt, Holds, ValidMsg, Wrap;
      var at := 8 * writeIdx;
      var header := LoadHeader(hostLittle, blk[..][at..at + HEADER_SIZE]);
      ReservedHeader(hostLittle, Mem(), at, size, model.ack);
      blkSz := Blocks(header.size);
      header := header.(ackSeq := ackSeqNum);
      StampedBytes(hostLittle, wireLittle, Mem(), at, size, model.ack);
      CopyIn(blk, at, StoreHeader(hostLittle, ConvertByteOrder(hostLittle, wireLittle, header)));
      HoldsBefore(wireLittle, old(Mem()), Mem(), 8 * readIdx, at, model.msgs);
    }

    /** The last store of `Push`. */
    method AppendStamped(ghost m: Msg, blkSz: nat)
      requires Valid() && ValidMsg(m) && m.stamp == model.ack
      requires blkSz == MsgBlocks(m) && writeIdx + blkSz <= blkCnt
      requires Mem()[8 * writeIdx..8 * (writeIdx + blkSz)] == Image(wireLittle, m)
      modifies `writeIdx, `model
      ensures Valid() && model == old(model).Push(m.msgType, m.payload, m.pad)
      ensures TotalBlocks(model.msgs) == old(TotalBlocks(model.msgs)) + blkSz
    {
      hide StoreHeader, LoadHeader, Images, Image, Wrap;
      HoldsSnoc(wireLittle, Mem(), 8 * readIdx, 8 * writeIdx, model.msgs, m);
      writeIdx := writeIdx + blkSz;
      model := model.(msgs := model.msgs + [m]);
    }

    /** Appends the message standing at `writeIdx`, stamped with the current acknowledgement. */
    method Push(ghost size: int)
      requires Valid() && Reserved(size)
      modifies this, blk
      ensures Valid()
      ensures var m := old(Pending(size)); model == old(model).Push(m.msgType, m.payload, m.pad)
      ensures TotalBlocks(model.msgs) == old(TotalBlocks(model.msgs)) + Blocks(size)
    {
      ghost var m := Pending(size);
      var blkSz := StampHeader(size);
      AppendStamped(m, blkSz);
    }

    /** The bytes `GetSendable` offers: the unsent suffix of the queue. */
    function Sendable(): (b: seq<byte>)
      requires Valid()
      reads this, blk
      ensures b == Images(wireLittle, model.msgs)[8 * model.sent..]
    {
      assert Mem()[8 * sendIdx..8 * writeIdx] == Mem()[8 * readIdx..8 * writeIdx][8 * (sendIdx - readIdx)..];
      blk[8 * sendIdx..8 * writeIdx]
    }

    method Sendout(blocks: nat)
      requires Valid() && sendIdx + blocks <= writeIdx
      modifies this
      ensures Valid() && model == old(model).Sendout(blocks)
    {
      sendIdx := sendIdx + blocks;
      model := model.Sendout(blocks);
    }

    /** The acknowledgement counter is bumped once for every message the application pops. */
    method CountPop()
      requires Valid()
      modifies `ackSeqNum, `model
      ensures Valid() && model == old(model).Pop()
    {
      WrapAddWrap(model.ack, 1);
      ackSeqNum := Wrap(ackSeqNum + 1);
      model := model.Pop();
    }

    /** The header of block `idx`, in host form; the first of the messages that start there. */
    method ConvertedHeader(idx: nat, ghost ms: seq<Msg>) returns (header: Header)
      requires Holds(wireLittle, Mem(), 8 * idx, 8 * writeIdx, ms) && ms != []
      ensures header == HeaderOf(ms[0])
      ensures Holds(wireLittle, Mem(), 8 * (idx + MsgBlocks(ms[0])), 8 * writeIdx, ms[1..])
    {
      hide Holds, LoadHeader, ConvertByteOrder, HeaderOf;
      FrontMessage(hostLittle, wireLittle, Mem(), 8 * idx, 8 * writeIdx, ms);
      header := LoadHeader(hostLittle, blk[..][8 * idx..8 * idx + HEADER_SIZE]);
      header := ConvertByteOrder(hostLittle, wireLittle, header);
    }

    /** The loop of `Ack` has stepped over the first `k` messages of `model`, which were at
        block `start`. */
    ghost predicate Released(k: nat, start: nat)
      reads this, blk
    {
      && k <= |model.msgs|
      && blk.Length == 8 * blkCnt
      && Holds(wireLittle, Mem(), 8 * readIdx, 8 * writeIdx, model.msgs[k..])
      && readIdx == start + TotalBlocks(model.msgs[..k])
      && readSeqNum == Wrap(model.base + k)
    }

    /** One round of the loop. */
    method ReleaseOne(ghost k: nat, ghost start: nat)
      requires Released(k, start) && k < |model.msgs|
      modifies `readIdx, `readSeqNum
      ensures Released(k + 1, start) && readSeqNum == Wrap(model.base + k + 1)
    {
      hide StoreHeader, LoadHeader, Image, Images, ConvertByteOrder, HeaderAt, ValidMsg, Wrap;
      ghost var rest := model.msgs[k..];
      assert rest[0] == model.msgs[k] && rest[1..] == model.msgs[k + 1..];
      var header := ConvertedHeader(readIdx, rest);
      TotalBlocksSnoc(model.msgs, k);
      WrapAddWrap(model.base + k, 1);
      readIdx := readIdx + Blocks(header.size);
      readSeqNum := Wrap(readSeqNum + 1);
    }

    /** The loop of `Ack`: one message at a time until the acknowledged number is met. */
    method ReleaseTo(ackSeq: u32, ghost start: nat)
      requires Released(0, start)
      requires 0 < Diff(ackSeq, Wrap(model.base)) <= |model.msgs|
      modifies `readIdx, `readSeqNum
      ensures Released(Diff(ackSeq, Wrap(model.base)), start)
    {
      hide Released, Diff, Wrap;
      ghost var d := Diff(ackSeq, Wrap(model.base));
      ghost var k := 0;
      while true
        invariant 0 <= k < d && Released(k, start)
        decreases d - k
      {
        ReleaseOne(k, start);
        k := k + 1;
        ReachesAck(model.base, ackSeq, k, d);
        if readSeqNum == ackSeq {
          break;
        }
      }
    }

    /** Releases the messages before `ackSeq`, the next number the peer expects. */
    method Ack(ackSeq: u32)
      requires Tied() && model.CanAck(ackSeq)
      modifies this
      ensures Tied() && model == old(model).Ack(ackSeq)
      ensures Diff(ackSeq, old(readSeqNum)) <= 0 ==> unchanged(this)
      ensures Diff(ackSeq, old(readSeqNum)) > 0 && model.msgs == [] ==> readIdx == 0 && sendIdx == 0 && writeIdx == 0
      ensures model.msgs != [] ==> writeIdx == old(writeIdx) && sendIdx == old(sendIdx)
    {
      hide Image, Images, Wrap, Diff, TotalBlocks, ValidMsg;
      if Diff(ackSeq, readSeqNum) <= 0 {
        return;
      }
      ghost var d := Diff(ackSeq, readSeqNum);
      NothingReleased();
      ReleaseTo(ackSeq, readIdx);
      StartOverIfEmpty(d, old(readIdx));
    }

    lemma NothingReleased()
      requires Tied()
      ensures Released(0, readIdx)
    {
      hide Image, Images, Wrap, ValidMsg;
      assert model.msgs[..0] == [] && model.msgs[0..] == model.msgs;
    }

    /** The end of `Ack`: an emptied queue starts over at block 0. */
    method StartOverIfEmpty(ghost d: nat, ghost start: nat)
      requires Released(d, start) && sendIdx <= writeIdx <= blkCnt && 8 * blkCnt < M32 && 0 < d
      requires model.sent == sendIdx - start && ackSeqNum == Wrap(model.ack)
      modifies this
      ensures Tied() && model == old(model).Drop(d)
      ensures if model.msgs == [] then readIdx == 0 && sendIdx == 0 && writeIdx == 0
        else writeIdx == old(writeIdx) && sendIdx == old(sendIdx)
    {
      hide Image, Wrap, ValidMsg;
      EmptyIffMet(d, start);
      model := model.Drop(d);
      if readIdx == writeIdx {
        readIdx, writeIdx, sendIdx := 0, 0, 0;
      }
    }

    lemma EmptyIffMet(d: nat, start: nat)
      requires Released(d, start)
      ensures readIdx == writeIdx <==> d == |model.msgs|
    {
      hide Image, Wrap, ValidMsg;
      assert |model.msgs[d..]| == |model.msgs| - d;
    }

    /** Stepping one message at a time meets the acknowledged number after exactly `d` steps. */
    static lemma ReachesAck(base: nat, ackSeq: u32, k: nat, d: nat)
      requires d == Diff(ackSeq, Wrap(base)) && k <= d
      ensures Wrap(base + k) == ackSeq <==> k == d
    {
    }

    /** An acknowledgement that covers only sent messages keeps `readIdx <= sendIdx`. */
    method AckSent(ackSeq: u32)
      requires Valid() && model.Covers(ackSeq)
      modifies this
      ensures Valid() && model == old(model).Ack(ackSeq)
    {
      hide Image, Images, Wrap, Diff, TotalBlocks, ValidMsg, Queue.Ack, Queue.Covers, Queue.CanAck;
      AckKeepsSent(model, ackSeq);
      Ack(ackSeq);
    }

    /** At login everything the peer has not acknowledged is to be sent again. */
    method LoginAck(ackSeq: u32)
      requires Tied() && model.CanAck(ackSeq)
      modifies this
      ensures Valid() && model == old(model).LoginAck(ackSeq)
    {
      hide StoreHeader, LoadHeader;
      Ack(ackSeq);
      sendIdx := readIdx;
      model := model.(sent := 0);
    }

    /** The scan of the file has passed the first `k` messages. */
    ghost predicate Scanned(k: nat, idx: nat, end: u32)
      reads this, blk
    {
      && k <= |model.msgs|
      && Holds(wireLittle, Mem(), 8 * idx, 8 * writeIdx, model.msgs[k..])
      && end == Wrap(model.base + k)
    }

    method ScanOne(idx: nat, end: u32, ghost k: nat) returns (tooNew: bool, idx': nat, end': u32)
      requires Tied() && Scanned(k, idx, end) && idx < writeIdx
      ensures k < |model.msgs| && (tooNew <==> TooNew(model.ack, model.msgs[k]))
      ensures Scanned(k + 1, idx', end') && idx < idx'
    {
      hide StoreHeader, LoadHeader, Image, Images, ConvertByteOrder, HeaderAt, ValidMsg, Diff, Wrap;
      ghost var rest := model.msgs[k..];
      assert rest != [];
      var header := ConvertedHeader(idx, rest);
      assert rest[1..] == model.msgs[k + 1..];
      tooNew := Diff(ackSeqNum, header.ackSeq) < 0;
      WrapAddWrap(model.base + k, 1);
      idx', end' := idx + Blocks(header.size), Wrap(end + 1);
    }

    lemma ScanEnd(k: nat, idx: nat, end: u32)
      requires Tied() && Scanned(k, idx, end) && idx >= writeIdx
      ensures k == |model.msgs| && idx == writeIdx && end == Wrap(model.End())
    {
    }

    /** The file is accepted if and only if no queued message carries an acknowledgement newer
        than the queue's own; the blocks always add up, and the window reported is the true one. */
    method SanityCheckAndGetSeq() returns (ok: bool, seqStart: u32, seqEnd: u32)
      requires Tied()
      ensures ok <==> NoneTooNew(model.ack, model.msgs)
      ensures StampsNear(model) ==> (ok <==> forall i :: 0 <= i < |model.msgs| ==> model.msgs[i].stamp <= model.ack)
      ensures ok ==> seqStart == Wrap(model.base) && seqEnd == Wrap(model.End())
    {
      hide StoreHeader, LoadHeader, Diff, Wrap, TooNew, StampsNear, Image, Images, ValidMsg, Holds;
      StampsDecide(model);
      var end := readSeqNum;
      var idx := readIdx;
      ghost var k := 0;
      assert model.msgs[0..] == model.msgs;
      while idx < writeIdx
        invariant Scanned(k, idx, end) && k <= |model.msgs|
        invariant NoneTooNew(model.ack, model.msgs[..k])
        decreases writeIdx - idx
      {
        var tooNew;
        tooNew, idx, end := ScanOne(idx, end, k);
        assert TooNew(model.ack, model.msgs[k]) <==> tooNew;
        if tooNew {
          return false, 0, 0;
        }
        k := k + 1;
      }
      ScanEnd(k, idx, end);
      assert model.msgs[..k] == model.msgs;
      return idx == writeIdx, readSeqNum, end;
    }
  }

  /** What `Alloc` computes when the size does not fit: the allocation covers header and payload
      if and only if their sum fits in 16 bits. */
  lemma AllocationCoversPayload(size: u16)
    ensures 8 * Blocks((size + HEADER_SIZE) % M16) >= HEADER_SIZE + size <==> size + HEADER_SIZE < M16
  {
  }
}
