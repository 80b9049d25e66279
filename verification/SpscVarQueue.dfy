/** The shared-memory queue as the two threads execute it: one method for each access to memory
    that the other thread can see, on the block array and the index variables themselves. */
module SpscVarQueue {
  import opened Words
  import opened Ring
  import RingTheorems

  class SPSCVarQueue {
    const blk: array<Block>
    var writeIdx: u32
    var writeIdxAtom: u32
    var readIdxCach: u32
    var readIdx: u32

    /** The continuation of each thread: which access comes next, with its local variables. */
    var producer: Producer
    var consumer: Consumer

    ghost var pushed: seq<Message>
    ghost var popped: seq<Message>

    ghost function View(): State
      reads this, blk
    {
      State(blk.Length, blk[..], writeIdx, writeIdxAtom, readIdxCach, readIdx, producer, consumer, pushed, popped)
    }

    constructor (cnt: nat)
      requires cnt > 0
      ensures fresh(blk) && View() == Start(cnt)
    {
      blk := new Block[cnt](_ => Block(0, 0));
      writeIdx, writeIdxAtom, readIdxCach, readIdx := 0, 0, 0, 0;
      producer, consumer := Idle, Ready;
      pushed, popped := [], [];
      new;
      assert blk[..] == seq(cnt, _ => Block(0, 0));
    }

    // ----- The producer's accesses

    /** The test of `Alloc` against the cached read index; private variables only. */
    method AllocTest(payload: u16)
      requires Enabled(View(), Alloc(payload))
      modifies `producer
      ensures View() == Step(old(View()), Alloc(payload))
    {
      var size := payload + 8;
      var blkSz := BlkSz(size);
      var paddingSz := blk.Length - Mod(writeIdx, blk.Length);
      var rewind := blkSz > paddingSz;
      var minReadIdx := Wrap(writeIdx + blkSz + (if rewind then paddingSz else 0) - blk.Length);
      if Diff(readIdxCach, minReadIdx) < 0 {
        producer := LoadRead(size);
      } else {
        producer := if rewind then Mark(size) else SetSize(size);
      }
    }

    /** The load of the read index and the second test. */
    method AllocReload()
      requires Enabled(View(), LoadReadIdx)
      modifies `producer, `readIdxCach
      ensures View() == Step(old(View()), LoadReadIdx)
    {
      var size := producer.size;
      var blkSz := BlkSz(size);
      var paddingSz := blk.Length - Mod(writeIdx, blk.Length);
      var rewind := blkSz > paddingSz;
      var minReadIdx := Wrap(writeIdx + blkSz + (if rewind then paddingSz else 0) - blk.Length);
      readIdxCach := readIdx;
      if Diff(readIdxCach, minReadIdx) < 0 {
        producer := Idle;
      } else {
        producer := if rewind then Mark(size) else SetSize(size);
      }
    }

    method AllocMark()
      requires Enabled(View(), StoreMark)
      modifies `producer, `writeIdx, blk
      ensures View() == Step(old(View()), StoreMark)
    {
      var at := Mod(writeIdx, blk.Length);
      blk[at] := blk[at].(size := 0);
      writeIdx := Wrap(writeIdx + (blk.Length - at));
      producer := SetSize(producer.size);
    }

    method AllocSize()
      requires Enabled(View(), StoreSize)
      modifies `producer, blk
      ensures View() == Step(old(View()), StoreSize)
    {
      var at := Mod(writeIdx, blk.Length);
      blk[at] := blk[at].(size := producer.size);
      producer := Filling(producer.size);
    }

    method WriteBlock(k: nat, block: Block)
      requires Enabled(View(), Fill(k, block))
      modifies blk
      ensures View() == Step(old(View()), Fill(k, block))
    {
      blk[Mod(writeIdx, blk.Length) + k] := block;
    }

    method PushAdvance()
      requires Enabled(View(), Push)
      modifies `producer, `writeIdx
      ensures View() == Step(old(View()), Push)
    {
      var at := Mod(writeIdx, blk.Length);
      var blkSz := BlkSz(blk[at].size);
      producer := Publish(blk[at..at + blkSz]);
      writeIdx := Wrap(writeIdx + blkSz);
    }

    method PushPublish()
      requires Enabled(View(), StoreWriteIdx)
      modifies `producer, `writeIdxAtom, `pushed
      ensures View() == Step(old(View()), StoreWriteIdx)
    {
      writeIdxAtom := writeIdx;
      pushed := pushed + [producer.msg];
      producer := Idle;
    }

    // ----- The consumer's accesses

    method FrontLoad()
      requires Enabled(View(), Front)
      modifies `consumer
      ensures View() == Step(old(View()), Front)
    {
      var currWriteIdx := writeIdxAtom;
      consumer := if readIdx == currWriteIdx then Ready else LoadSize(currWriteIdx);
    }

    method FrontSize()
      requires Enabled(View(), LoadHeader)
      modifies `consumer
      ensures View() == Step(old(View()), LoadHeader)
    {
      var at := Mod(readIdx, blk.Length);
      consumer := if blk[at].size == 0 then Rewind(Wrap(readIdx + (blk.Length - at)), consumer.w) else Have;
    }

    method FrontRewind()
      requires Enabled(View(), StoreRewind)
      modifies `consumer, `readIdx
      ensures View() == Step(old(View()), StoreRewind)
    {
      readIdx := consumer.r;
      consumer := if readIdx == consumer.w then Ready else Have;
    }

    method PopSize()
      requires Enabled(View(), Pop)
      modifies `consumer
      ensures View() == Step(old(View()), Pop)
    {
      var at := Mod(readIdx, blk.Length);
      var blkSz := BlkSz(blk[at].size);
      consumer := Release(Wrap(readIdx + blkSz), blk[at..at + blkSz]);
    }

    method PopStore()
      requires Enabled(View(), StoreReadIdx)
      modifies `consumer, `readIdx, `popped
      ensures View() == Step(old(View()), StoreReadIdx)
    {
      readIdx := consumer.r;
      popped := popped + [consumer.msg];
      consumer := Ready;
    }

    // ----- Whole operations and interleavings

    /** `Alloc` from its call to its return, run without interruption. */
    method AllocWhole(payload: u16) returns (ok: bool)
      requires Enabled(View(), Alloc(payload))
      modifies this, blk
      ensures ok <==> !RingTheorems.Refused(old(View()), payload)
      ensures ok ==> producer == Filling(payload + 8)
      ensures !ok ==> producer == Idle && View() == RingTheorems.Decide(old(View()), payload)
      ensures consumer == old(consumer) && readIdx == old(readIdx) && writeIdxAtom == old(writeIdxAtom)
      ensures pushed == old(pushed) && popped == old(popped)
      ensures old(RingTheorems.Attainable(View())) ==> RingTheorems.Attainable(View())
      ensures ok && old(RingTheorems.Attainable(View())) ==>
        var n, at := BlkSz(payload + 8), Mod(writeIdx, blk.Length);
        && 64 * (n - 1) < payload + 8 <= 64 * n
        && at + n <= blk.Length && blk[at].size == payload + 8
    {
      hide RingTheorems.Attainable, BlkSz, Mod, HasRoom, NeedsRewind;
      ghost var s0 := View();
      AllocTest(payload);
      Carry(s0, Alloc(payload));
      if producer.LoadRead? {
        ghost var s1 := View();
        AllocReload();
        Carry(s1, LoadReadIdx);
      }
      if producer.Idle? {
        return false;
      }
      if producer.Mark? {
        ghost var s2 := View();
        AllocMark();
        Carry(s2, StoreMark);
      }
      ghost var s3 := View();
      AllocSize();
      Carry(s3, StoreSize);
      Covered(View());
      return true;
    }

    static lemma Carry(s: State, a: Action)
      requires Enabled(s, a)
      ensures RingTheorems.Attainable(s) ==> RingTheorems.Attainable(Step(s, a))
    {
      hide RingTheorems.Attainable, Enabled, Step;
      if RingTheorems.Attainable(s) {
        RingTheorems.AttainableStep(s, a);
      }
    }

    static lemma Covered(s: State)
      requires WellFormed(s) && s.producer.Filling?
      ensures RingTheorems.Attainable(s) ==>
        var n := BlkSz(s.producer.size);
        InArray(s, Mod(s.writeIdx, s.cnt), n) && 64 * (n - 1) < s.producer.size <= 64 * n
    {
      hide RingTheorems.Attainable, BlkSz, Mod, RingTheorems.ProducerWrites, RingTheorems.ConsumerReads;
      if RingTheorems.Attainable(s) {
        RingTheorems.Ownership(s);
      }
    }

    /** One access of either thread. */
    method Execute(a: Action)
      requires Enabled(View(), a)
      modifies this, blk
      ensures View() == Step(old(View()), a)
    {
      match a
      case Alloc(payload) => AllocTest(payload);
      case LoadReadIdx => AllocReload();
      case StoreMark => AllocMark();
      case StoreSize => AllocSize();
      case Fill(k, block) => WriteBlock(k, block);
      case Push => PushAdvance();
      case StoreWriteIdx => PushPublish();
      case Front => FrontLoad();
      case LoadHeader => FrontSize();
      case StoreRewind => FrontRewind();
      case Pop => PopSize();
      case StoreReadIdx => PopStore();
    }

    /** Any interleaving of the two threads, from a new queue on: what comes out is what went in, in
        order. */
    method Interleave(schedule: seq<Action>)
      requires RingTheorems.Attainable(View()) && IsRun(View(), schedule)
      modifies this, blk
      ensures View() == After(old(View()), schedule)
      ensures RingTheorems.Attainable(View()) && popped <= pushed
    {
      hide RingTheorems.Attainable, Enabled, Step;
      var i := 0;
      while i < |schedule|
        invariant 0 <= i <= |schedule|
        invariant RingTheorems.Attainable(View()) && IsRun(View(), schedule[i..])
        invariant After(View(), schedule[i..]) == After(old(View()), schedule)
      {
        assert schedule[i..][1..] == schedule[i + 1..];
        RingTheorems.AttainableStep(View(), schedule[i]);
        Execute(schedule[i]);
        i := i + 1;
      }
      RingTheorems.FirstInFirstOut(View());
    }
  }
}
