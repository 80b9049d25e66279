/** What holds in every run of the ring, under every interleaving of the two threads. */
module RingTheorems {
  import opened Words
  import opened Ring
  import opened RingInvariant

  /** The invariant, with its unbounded indices forgotten. */
  ghost predicate Consistent(s: State) {
    exists g, q :: Inv(s, g, q)
  }

  lemma StepConsistent(s: State, a: Action)
    requires Consistent(s) && Enabled(s, a)
    ensures Consistent(Step(s, a))
  {
    hide Inv, Step;
    var g, q :| Inv(s, g, q);
    match a
    case Alloc(size) => StepAlloc(s, g, q, size);
    case LoadReadIdx => StepLoadReadIdx(s, g, q);
    case StoreMark => StepStoreMark(s, g, q);
    case StoreSize => StepStoreSize(s, g, q);
    case Fill(k, block) => StepFill(s, g, q, k, block);
    case Push => StepPush(s, g, q);
    case StoreWriteIdx => StepStoreWriteIdx(s, g, q);
    case Front => StepFront(s, g, q);
    case LoadHeader => StepLoadHeader(s, g, q);
    case StoreRewind => StepStoreRewind(s, g, q);
    case Pop => StepPop(s, g, q);
    case StoreReadIdx => StepStoreReadIdx(s, g, q);
  }

  lemma {:induction false} RunConsistent(s: State, run: seq<Action>)
    requires Consistent(s) && IsRun(s, run)
    ensures Consistent(After(s, run))
    decreases |run|
  {
    hide Consistent, Enabled, Step;
    if run != [] {
      StepConsistent(s, run[0]);
      RunConsistent(Step(s, run[0]), run[1..]);
    }
  }

  ghost predicate Attainable(s: State) {
    exists cnt: nat, run :: LegalCount(cnt) && IsRun(Start(cnt), run) && s == After(Start(cnt), run)
  }

  lemma AttainableConsistent(s: State)
    requires Attainable(s)
    ensures Consistent(s)
  {
    hide IsRun, After, Start, LegalCount, Inv;
    var cnt: nat, run :| LegalCount(cnt) && IsRun(Start(cnt), run) && s == After(Start(cnt), run);
    StartOK(cnt);
    RunConsistent(Start(cnt), run);
  }

  /** The message `Front` has made available, as it stands in memory now. */
  function Available(s: State): Message
    requires WellFormed(s)
  {
    var at := Mod(s.readIdx, s.cnt);
    if InArray(s, at, BlkSz(s.blk[at].size)) then s.blk[at..at + BlkSz(s.blk[at].size)] else []
  }

  /** First in, first out: what has been popped is what was pushed, in order, each once; and as long
      as the consumer holds a message, whatever the producer does meanwhile, it is the oldest
      message not yet popped, intact. */
  lemma FirstInFirstOut(s: State)
    requires Attainable(s)
    ensures s.popped <= s.pushed
    ensures s.consumer.Have? ==>
      |s.popped| < |s.pushed| && WellFormed(s) && Available(s) == s.pushed[|s.popped|] && Enabled(s, Pop)
    ensures s.consumer.Release? ==> |s.popped| < |s.pushed| && s.consumer.msg == s.pushed[|s.popped|]
  {
    hide Attainable, Inv;
    AttainableConsistent(s);
    var g, q :| Inv(s, g, q);
    QueueFacts(s, g, q);
  }

  lemma QueueFacts(s: State, g: Indices, q: seq<Message>)
    requires Inv(s, g, q)
    ensures s.popped <= s.pushed
    ensures s.consumer.Have? ==>
      |s.popped| < |s.pushed| && WellFormed(s) && Available(s) == s.pushed[|s.popped|] && Enabled(s, Pop)
    ensures s.consumer.Release? ==> |s.popped| < |s.pushed| && s.consumer.msg == s.pushed[|s.popped|]
  {
    hide BlkSz, ProducerOK, Mod;
    ModOfWrap(g.r, s.cnt);
    if s.consumer.Have? {
      FirstIsMessage(s.blk, g.r, q[0]);
    }
  }

  /** `Front` answers null at its first test exactly when nothing published is left, and its second
      test, after a rewind, never does. */
  lemma NullMeansEmpty(s: State)
    requires Attainable(s)
    ensures Enabled(s, Front) ==> (Step(s, Front).consumer.Ready? <==> s.popped == s.pushed)
    ensures Enabled(s, StoreRewind) ==> Step(s, StoreRewind).consumer.Have?
  {
    hide Attainable, Inv, Enabled, Step;
    AttainableConsistent(s);
    var g, q :| Inv(s, g, q);
    if Enabled(s, Front) {
      StepFront(s, g, q);
      NothingLeft(s, g, q);
    }
    if Enabled(s, StoreRewind) {
      StepStoreRewind(s, g, q);
    }
  }

  lemma NothingLeft(s: State, g: Indices, q: seq<Message>)
    requires Inv(s, g, q)
    ensures q == [] <==> s.popped == s.pushed
  {
    hide Chain, ProducerOK, ConsumerOK;
  }

  // ----- Ownership

  /** The blocks the producer's next store may touch. */
  predicate ProducerWrites(s: State, at: nat)
    requires WellFormed(s)
  {
    match s.producer
    case Mark(_) => at == Mod(s.writeIdx, s.cnt)
    case SetSize(_) => at == Mod(s.writeIdx, s.cnt)
    case Filling(size) => Mod(s.writeIdx, s.cnt) <= at < Mod(s.writeIdx, s.cnt) + BlkSz(size)
    case _ => false
  }

  /** The blocks the consumer may read: the size it is about to load, or the message it holds. */
  predicate ConsumerReads(s: State, at: nat)
    requires WellFormed(s)
  {
    match s.consumer
    case LoadSize(_) => at == Mod(s.readIdx, s.cnt)
    case Have => Mod(s.readIdx, s.cnt) <= at < Mod(s.readIdx, s.cnt) + |Available(s)|
    case _ => false
  }

  /** No data race: the two threads never touch the same block, and what is allocated does not
      straddle the end of the array. */
  lemma Ownership(s: State)
    requires Attainable(s)
    ensures WellFormed(s)
    ensures forall at: nat :: !(ProducerWrites(s, at) && ConsumerReads(s, at))
    ensures s.producer.Filling? ==>
      var n := BlkSz(s.producer.size);
      InArray(s, Mod(s.writeIdx, s.cnt), n) && 64 * (n - 1) < s.producer.size <= 64 * n
  {
    hide Attainable, Inv, ProducerWrites, ConsumerReads, BlkSz;
    AttainableConsistent(s);
    var g, q :| Inv(s, g, q);
    IndexFacts(s, g, q);
    if s.producer.Filling? {
      BlocksCover(s.producer.size);
    }
    forall at: nat | ProducerWrites(s, at) && ConsumerReads(s, at)
      ensures false
    {
      var i := WrittenIndex(s, g, q, at);
      var j := ReadIndex(s, g, q, at);
      ModDistinct(j, i, s.cnt);
    }
  }

  lemma IndexFacts(s: State, g: Indices, q: seq<Message>)
    requires Inv(s, g, q)
    ensures WellFormed(s) && g.rc <= g.r <= g.wa <= g.w <= g.rc + s.cnt
    ensures s.producer.Filling? ==>
      InArray(s, Mod(s.writeIdx, s.cnt), BlkSz(s.producer.size)) && s.producer.size > 0
  {
    hide Mod, Chain, ConsumerOK, BlkSz;
    ModOfWrap(g.w, s.cnt);
  }

  lemma WrittenIndex(s: State, g: Indices, q: seq<Message>, at: nat) returns (i: nat)
    requires Inv(s, g, q) && ProducerWrites(s, at)
    ensures g.wa <= i < g.r + s.cnt && at == Mod(i, s.cnt)
  {
    hide Mod, Chain, ConsumerOK, BlkSz;
    ModOfWrap(g.w, s.cnt);
    match s.producer
    case Mark(size) => i := g.w;
    case SetSize(size) =>
      BlkSzPositive(size);
      i := g.w;
    case Filling(size) =>
      i := g.w + (at - Mod(g.w, s.cnt));
      ModSmall(g.w, at - Mod(g.w, s.cnt), s.cnt);
  }

  lemma ReadIndex(s: State, g: Indices, q: seq<Message>, at: nat) returns (j: nat)
    requires Inv(s, g, q) && ConsumerReads(s, at)
    ensures g.r <= j < g.wa && at == Mod(j, s.cnt)
  {
    hide Mod, ProducerOK, BlkSz;
    ModOfWrap(g.r, s.cnt);
    ChainBounds(s.blk, g.r, q, g.wa);
    if s.consumer.Have? {
      FirstIsMessage(s.blk, g.r, q[0]);
      ChainBounds(s.blk, g.r + |q[0]|, q[1..], g.wa);
      j := g.r + (at - Mod(g.r, s.cnt));
      ModSmall(g.r, at - Mod(g.r, s.cnt), s.cnt);
    } else {
      j := g.r;
    }
  }

  /** How far index `b` is behind index `a` on the 32-bit circle. */
  function Behind(a: u32, b: u32): nat {
    (a - b) % 0x1_0000_0000
  }

  /** The four indices stand in order within one lap: the cached read index never overtakes the read
      index, that never the published write index, that never the private one.  And there is at most
      one rewind between two pushes: a marker is only ever stored where the published data ends. */
  lemma IndicesInOrder(s: State)
    requires Attainable(s)
    ensures Behind(s.readIdx, s.readIdxCach) + Behind(s.writeIdxAtom, s.readIdx)
      + Behind(s.writeIdx, s.writeIdxAtom) <= s.cnt
    ensures s.producer.Mark? ==> s.writeIdx == s.writeIdxAtom
  {
    hide Attainable, Inv;
    AttainableConsistent(s);
    var g, q :| Inv(s, g, q);
    OrderFromIndices(s, g, q);
  }

  lemma OrderFromIndices(s: State, g: Indices, q: seq<Message>)
    requires Inv(s, g, q)
    ensures Behind(s.readIdx, s.readIdxCach) + Behind(s.writeIdxAtom, s.readIdx)
      + Behind(s.writeIdx, s.writeIdxAtom) <= s.cnt
    ensures s.producer.Mark? ==> s.writeIdx == s.writeIdxAtom
  {
    hide Mod, Chain, ConsumerOK, BlkSz, Wrap;
    WrapDifference(g.r, g.rc);
    WrapDifference(g.wa, g.r);
    WrapDifference(g.w, g.wa);
  }

  // ----- Capacity

  /** The consumer has released everything published and is not inside an operation. */
  predicate Drained(s: State) {
    s.popped == s.pushed && s.consumer.Ready?
  }

  /** The whole of `Alloc`, up to the decision, without interference: the cached index is refreshed
      if it does not suffice. */
  function Decide(s: State, payload: u16): State
    requires Enabled(s, Alloc(payload))
  {
    var s1 := Step(s, Alloc(payload));
    if s1.producer.LoadRead? then Step(s1, LoadReadIdx) else s1
  }

  predicate Refused(s: State, payload: u16)
    requires Enabled(s, Alloc(payload))
  {
    Decide(s, payload).producer.Idle?
  }

  /** The blocks skipped by a rewind that has been stored but not published. */
  function Abandoned(s: State): nat {
    (s.writeIdx - s.writeIdxAtom) % 0x1_0000_0000
  }

  /** On a drained ring the decision depends only on the write index: the message, the blocks it
      would skip, and the blocks an abandoned rewind has already skipped, must fit together. */
  lemma DrainedDecision(s: State, payload: u16)
    requires Attainable(s) && Drained(s) && Enabled(s, Alloc(payload))
    ensures Refused(s, payload) <==> Abandoned(s) + Demand(s.cnt, s.writeIdx, payload + 8) > s.cnt
  {
    hide Attainable, Inv, Enabled, Step;
    AttainableConsistent(s);
    var g, q :| Inv(s, g, q);
    DecisionFromIndices(s, g, q, payload);
  }

  lemma DecisionFromIndices(s: State, g: Indices, q: seq<Message>, payload: u16)
    requires Inv(s, g, q) && Drained(s) && Enabled(s, Alloc(payload))
    ensures Refused(s, payload) <==> Abandoned(s) + Demand(s.cnt, s.writeIdx, payload + 8) > s.cnt
    ensures g.w - g.wa == Abandoned(s) && g.r == g.wa
  {
    hide Mod, BlkSz, ProducerOK, HasRoom, Demand, Refused;
    NothingLeft(s, g, q);
    WrapDifference(g.w, g.wa);
    DecisionAnywhere(s, g, q, payload);
  }

  lemma DecisionAnywhere(s: State, g: Indices, q: seq<Message>, payload: u16)
    requires Inv(s, g, q) && Enabled(s, Alloc(payload))
    ensures Refused(s, payload) <==> g.w - g.r + Demand(s.cnt, s.writeIdx, payload + 8) > s.cnt
    ensures g.w - g.r == Behind(s.writeIdx, s.readIdx)
  {
    hide Mod, BlkSz, ProducerOK, ConsumerOK, Chain, HasRoom, Granted, NeedsRewind;
    var size := payload + 8;
    ModOfWrap(g.w, s.cnt);
    WrapDifference(g.w, g.r);
    RoomIsExact(s, g.w, g.rc, size);
    RoomIsExact(s.(producer := LoadRead(size), readIdxCach := s.readIdx), g.w, g.r, size);
    GrantedIsNotIdle(s, size);
    GrantedIsNotIdle(s.(producer := LoadRead(size), readIdxCach := s.readIdx), size);
  }

  lemma GrantedIsNotIdle(s: State, size: u16)
    requires s.cnt > 0
    ensures !Granted(s, size).Idle? && !Granted(s, size).LoadRead?
  {
  }

  lemma WrapDifference(a: nat, b: nat)
    requires b <= a < b + M32
    ensures (Wrap(a) - Wrap(b)) % 0x1_0000_0000 == a - b
  {
  }

  /** Capacity: a drained ring never refuses a message of at most half its blocks, wherever the
      indices stand, and even behind an abandoned rewind. */
  lemma HalfAlwaysFits(s: State, payload: u16)
    requires Attainable(s) && Drained(s) && Enabled(s, Alloc(payload))
    requires 2 * BlkSz(payload + 8) <= s.cnt
    ensures !Refused(s, payload)
  {
    hide Attainable, Inv, Step, Refused;
    AttainableConsistent(s);
    var g, q :| Inv(s, g, q);
    DecisionFromIndices(s, g, q, payload);
    SkipIsSmall(s, g, q);
  }

  lemma SkipIsSmall(s: State, g: Indices, q: seq<Message>)
    requires Inv(s, g, q) && (s.producer.Idle? || s.producer.Filling?)
    ensures 2 * (g.w - g.wa) < s.cnt && s.cnt > 0
    ensures g.w != g.wa ==> Mod(s.writeIdx, s.cnt) == 0
  {
    hide Mod, BlkSz, Chain, ConsumerOK;
    ModOfWrap(g.w, s.cnt);
    PositionBounds(s.blk, g.wa);
  }

  // ----- The bound is tight

  /** Both threads at rest, everything released, all indices at `i`. */
  ghost predicate Quiet(s: State, i: nat) {
    && Attainable(s) && WellFormed(s) && LegalCount(s.cnt)
    && s.producer.Idle? && s.consumer.Ready? && s.popped == s.pushed
    && s.writeIdx == Wrap(i) && s.writeIdxAtom == Wrap(i) && s.readIdx == Wrap(i)
  }

  lemma {:induction false} RunSnoc(s: State, run: seq<Action>, a: Action)
    requires IsRun(s, run) && Enabled(After(s, run), a)
    ensures IsRun(s, run + [a]) && After(s, run + [a]) == Step(After(s, run), a)
    decreases |run|
  {
    hide Enabled, Step;
    if run == [] {
      assert [] + [a] == [a] && [a][1..] == [];
      assert IsRun(Step(s, a), []);
    } else {
      RunSnoc(Step(s, run[0]), run[1..], a);
      assert (run + [a])[0] == run[0] && (run + [a])[1..] == run[1..] + [a];
    }
  }

  lemma AttainableStep(s: State, a: Action)
    requires Attainable(s) && Enabled(s, a)
    ensures Attainable(Step(s, a))
  {
    hide IsRun, After, Start, LegalCount, Enabled, Step;
    var cnt: nat, run :| LegalCount(cnt) && IsRun(Start(cnt), run) && s == After(Start(cnt), run);
    RunSnoc(Start(cnt), run, a);
  }

  /** An empty message goes through the ring: all indices move on by one block. */
  lemma PassOne(s: State, i: nat) returns (s': State)
    requires Quiet(s, i)
    ensures Quiet(s', i + 1) && s'.cnt == s.cnt
  {
    hide Attainable, LegalCount, Consistent;
    var at := Mod(s.writeIdx, s.cnt);
    AttainableConsistent(s);
    OneBlockGranted(s);
    AttainableStep(s, Alloc(0));
    var s1 := Step(s, Alloc(0));
    if s1.producer.LoadRead? {
      AttainableStep(s1, LoadReadIdx);
      s1 := Step(s1, LoadReadIdx);
    }
    s' := CompleteOne(s, s1, i);
  }

  lemma OneBlockGranted(s: State)
    requires Consistent(s) && Drained(s) && Enabled(s, Alloc(0)) && s.writeIdx == s.writeIdxAtom
    ensures Decide(s, 0) == s.(producer := SetSize(8), readIdxCach := Decide(s, 0).readIdxCach)
  {
    hide Inv, Step;
    var g, q :| Inv(s, g, q);
    DecisionFromIndices(s, g, q, 0);
    OneBlockDecision(s);
  }

  lemma OneBlockDecision(s: State)
    requires Enabled(s, Alloc(0)) && s.writeIdx == s.writeIdxAtom
    requires Refused(s, 0) <==> Abandoned(s) + Demand(s.cnt, s.writeIdx, 8) > s.cnt
    ensures Decide(s, 0) == s.(producer := SetSize(8), readIdxCach := Decide(s, 0).readIdxCach)
  {
    hide HasRoom;
  }

  lemma CompleteOne(s: State, s1: State, i: nat) returns (s': State)
    requires Quiet(s, i) && Attainable(s1) && s1 == s.(producer := SetSize(8), readIdxCach := s1.readIdxCach)
    ensures Quiet(s', i + 1) && s'.cnt == s.cnt
  {
    hide Attainable, LegalCount, Mod;
    var at := Mod(s.writeIdx, s.cnt);
    AttainableStep(s1, StoreSize);
    var s2 := Step(s1, StoreSize);
    assert s2.blk[at].size == 8;
    AttainableStep(s2, Push);
    var s3 := Step(s2, Push);
    AttainableStep(s3, StoreWriteIdx);
    var s4 := Step(s3, StoreWriteIdx);
    WrapAddWrap(i, 1);
    s' := ReleaseOne(s, s4, i);
  }

  lemma ReleaseOne(s: State, s4: State, i: nat) returns (s': State)
    requires Quiet(s, i) && Attainable(s4) && WellFormed(s4) && s4.cnt == s.cnt
    requires s4.producer.Idle? && s4.consumer.Ready? && s4.readIdx == Wrap(i)
    requires s4.writeIdx == Wrap(i + 1) && s4.writeIdxAtom == Wrap(i + 1)
    requires var at := Mod(Wrap(i), s.cnt);
      s4.blk[at].size == 8 && s4.popped == s.popped && s4.pushed == s.pushed + [s4.blk[at..at + 1]]
    ensures Quiet(s', i + 1) && s'.cnt == s.cnt
  {
    hide Attainable, LegalCount, Mod;
    WrapAddWrap(i, 1);
    NextDiffers(i);
    AttainableStep(s4, Front);
    var s5 := Step(s4, Front);
    AttainableStep(s5, LoadHeader);
    var s6 := Step(s5, LoadHeader);
    AttainableStep(s6, Pop);
    var s7 := Step(s6, Pop);
    AttainableStep(s7, StoreReadIdx);
    s' := Step(s7, StoreReadIdx);
  }

  lemma NextDiffers(i: nat)
    ensures Wrap(Wrap(i) + 1) != Wrap(i)
  {
  }

  lemma {:induction false} ReachOffset(cnt: nat, i: nat) returns (s: State)
    requires LegalCount(cnt)
    ensures Quiet(s, i) && s.cnt == cnt
  {
    if i == 0 {
      s := Start(cnt);
      LegalCountFacts(cnt);
      assert IsRun(Start(cnt), []) && s == After(Start(cnt), []);
    } else {
      var t := ReachOffset(cnt, i - 1);
      s := PassOne(t, i - 1);
    }
  }

  /** `s` is an attainable empty ring that refuses the payload. */
  ghost predicate RefusesEmpty(s: State, cnt: nat, payload: u16) {
    Attainable(s) && s.cnt == cnt && Drained(s) && Enabled(s, Alloc(payload)) && Refused(s, payload)
  }

  /** The bound is tight: every message of more than half the blocks is refused in some reachable
      empty state. */
  lemma HalfIsTight(cnt: nat, payload: u16)
    requires LegalCount(cnt) && cnt >= 2 && payload + 8 < M16 && 2 * BlkSz(payload + 8) > cnt
    ensures exists s :: RefusesEmpty(s, cnt, payload)
  {
    hide Attainable, BlkSz, Refused, Inv;
    var s := ReachOffset(cnt, cnt / 2);
    LegalCountFacts(cnt);
    EvenCount(cnt);
    ModOfWrap(cnt / 2, cnt);
    assert Mod(cnt / 2, cnt) == cnt / 2 by { DivModUnique(cnt / 2, cnt, 0, cnt / 2); }
    DrainedDecision(s, payload);
    assert RefusesEmpty(s, cnt, payload);
  }

  lemma EvenCount(cnt: nat)
    requires LegalCount(cnt) && cnt >= 2
    ensures cnt % 2 == 0
  {
  }

  lemma OneBlockFits(s: State, payload: u16)
    requires Attainable(s) && Drained(s) && Enabled(s, Alloc(payload)) && s.cnt == 1 && BlkSz(payload + 8) == 1
    ensures !Refused(s, payload)
  {
    hide Attainable, Inv, Step, Refused, BlkSz;
    AttainableConsistent(s);
    var g, q :| Inv(s, g, q);
    DecisionFromIndices(s, g, q, payload);
    SkipIsSmall(s, g, q);
  }

  /** A message may be refused by an empty ring if and only if it needs more than half the blocks; only
      in a ring of one block is a message of one block safe all the same. */
  lemma CapacityExact(cnt: nat, payload: u16)
    requires LegalCount(cnt) && payload + 8 < M16
    ensures (exists s :: RefusesEmpty(s, cnt, payload)) <==>
      2 * BlkSz(payload + 8) > cnt && !(cnt == 1 && BlkSz(payload + 8) == 1)
  {
    hide Attainable, BlkSz, Refused, Enabled;
    if exists s :: RefusesEmpty(s, cnt, payload) {
      var s :| RefusesEmpty(s, cnt, payload);
      if 2 * BlkSz(payload + 8) <= cnt {
        HalfAlwaysFits(s, payload);
      } else if cnt == 1 && BlkSz(payload + 8) == 1 {
        OneBlockFits(s, payload);
      }
    }
    LegalCountFacts(cnt);
    if cnt >= 2 && 2 * BlkSz(payload + 8) > cnt {
      HalfIsTight(cnt, payload);
    } else if cnt == 1 && BlkSz(payload + 8) > 1 {
      RefusedByOne(payload);
    }
  }

  lemma RefusedByOne(payload: u16)
    requires LegalCount(1) && payload + 8 < M16 && BlkSz(payload + 8) > 1
    ensures exists s :: RefusesEmpty(s, 1, payload)
  {
    hide Attainable, BlkSz, Refused, Inv;
    var s := ReachOffset(1, 0);
    DrainedDecision(s, payload);
    assert RefusesEmpty(s, 1, payload);
  }
}
