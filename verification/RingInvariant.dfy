/** The ring refines an unbounded first-in first-out queue under every interleaving.

    Beside the wrapped indices the invariant keeps the unbounded ones: `w` the private write
    index, `wa` the published one, `r` the read index, `rc` the producer's cached copy of it, and
    `seen` the published index the consumer last loaded.
 */
module RingInvariant {
  import opened Words
  import opened Ring

  datatype Indices = Indices(w: nat, wa: nat, r: nat, rc: nat, seen: nat)

  ghost predicate LegalMessage(m: Message) {
    m != [] && m[0].size >= 8 && |m| == BlkSz(m[0].size)
  }

  /** Where the first message at or behind index `r` starts: a size of 0 marks a rewind. */
  function Position(blk: seq<Block>, r: nat): nat
    requires blk != []
  {
    var at := Mod(r, |blk|);
    if blk[at].size == 0 then r + (|blk| - at) else r
  }

  /** The blocks from index `r` up to `end` hold the messages `q`, none straddling the end of the
      array, with rewind markers where needed. */
  ghost predicate Chain(blk: seq<Block>, r: nat, q: seq<Message>, end: nat)
    requires blk != []
    decreases |q|
  {
    if q == [] then r == end
    else
      var p := Position(blk, r);
      && LegalMessage(q[0])
      && Stored(blk, p, q[0])
      && p + |q[0]| <= end
      && Chain(blk, p + |q[0]|, q[1..], end)
  }

  /** The message `m` stands at index `p`, contiguous in the array. */
  ghost predicate Stored(blk: seq<Block>, p: nat, m: Message)
    requires blk != []
  {
    Mod(p, |blk|) + |m| <= |blk| && blk[Mod(p, |blk|)..Mod(p, |blk|) + |m|] == m
  }

  /** The same block contents at all indices from `lo` up to `hi`. */
  ghost predicate SameBlocks(blk: seq<Block>, blk': seq<Block>, lo: nat, hi: nat)
    requires blk != []
  {
    |blk'| == |blk| && forall i: nat :: lo <= i < hi ==> blk'[Mod(i, |blk|)] == blk[Mod(i, |blk|)]
  }

  lemma PositionBounds(blk: seq<Block>, r: nat)
    requires blk != []
    ensures r <= Position(blk, r) <= r + |blk|
    ensures Position(blk, r) > r ==> Mod(Position(blk, r), |blk|) == 0
  {
    if Position(blk, r) > r {
      ModNextLap(r, |blk|);
    }
  }

  lemma {:induction false} ChainBounds(blk: seq<Block>, r: nat, q: seq<Message>, end: nat)
    requires blk != [] && Chain(blk, r, q, end)
    ensures r <= end && (q != [] ==> r < end)
    decreases |q|
  {
    if q != [] {
      PositionBounds(blk, r);
    }
  }

  lemma StoredBlock(blk: seq<Block>, p: nat, m: Message, k: nat)
    requires blk != [] && Stored(blk, p, m) && k < |m|
    ensures Mod(p + k, |blk|) == Mod(p, |blk|) + k && blk[Mod(p + k, |blk|)] == m[k]
  {
    ModSmall(p, k, |blk|);
  }

  lemma SameStored(blk: seq<Block>, blk': seq<Block>, p: nat, m: Message)
    requires blk != [] && Stored(blk, p, m) && SameBlocks(blk, blk', p, p + |m|)
    ensures Stored(blk', p, m)
  {
    var at := Mod(p, |blk|);
    forall k | 0 <= k < |m|
      ensures blk'[at + k] == m[k]
    {
      StoredBlock(blk, p, m, k);
    }
  }

  /** Messages are not disturbed by writes elsewhere. */
  lemma SamePosition(blk: seq<Block>, blk': seq<Block>, r: nat)
    requires blk != [] && SameBlocks(blk, blk', r, r + 1)
    ensures Position(blk', r) == Position(blk, r)
  {
    hide Mod;
  }

  lemma {:induction false} SameChain(blk: seq<Block>, blk': seq<Block>, r: nat, q: seq<Message>, end: nat)
    requires blk != [] && Chain(blk, r, q, end) && SameBlocks(blk, blk', r, end)
    ensures Chain(blk', r, q, end)
    decreases |q|
  {
    if q != [] {
      var p := Position(blk, r);
      PositionBounds(blk, r);
      assert p == Position(blk', r) by {
        ChainBounds(blk, r, q, end);
        assert blk'[Mod(r, |blk|)] == blk[Mod(r, |blk|)];
      }
      SameStored(blk, blk', p, q[0]);
      SameChain(blk, blk', p + |q[0]|, q[1..], end);
    }
  }

  /** A message written behind the last one, directly or behind a rewind marker, extends the
      chain. */
  lemma {:induction false} ChainAppend(blk: seq<Block>, r: nat, q: seq<Message>, end: nat, m: Message)
    requires blk != [] && Chain(blk, r, q, end)
    requires LegalMessage(m) && Stored(blk, Position(blk, end), m)
    ensures Chain(blk, r, q + [m], Position(blk, end) + |m|)
    decreases |q|
  {
    var p := Position(blk, r);
    if q == [] {
      assert (q + [m])[0] == m && (q + [m])[1..] == [];
      assert Chain(blk, p + |m|, [], p + |m|);
    } else {
      assert (q + [m])[0] == q[0] && (q + [m])[1..] == q[1..] + [m];
      ChainBounds(blk, p + |q[0]|, q[1..], end);
      PositionBounds(blk, end);
      ChainAppend(blk, p + |q[0]|, q[1..], end, m);
    }
  }

  // ----- The invariant

  ghost predicate Unreleased(s: State, q: seq<Message>) {
    |s.popped| <= |s.pushed| && s.popped == s.pushed[..|s.popped|] && q == s.pushed[|s.popped|..]
  }

  /** Either nothing has been skipped since the last publication, or one rewind marker has been
      stored where the published data ends, and it skips less than half of the array. */
  ghost predicate OneRewind(s: State, g: Indices)
    requires WellFormed(s)
  {
    g.w == g.wa || Skipped(s, g, g.w)
  }

  ghost predicate Skipped(s: State, g: Indices, w: nat)
    requires WellFormed(s)
  {
    && g.wa < w && w == Position(s.blk, g.wa)
    && 2 * (w - g.wa) < s.cnt
  }

  /** A message of `size` bytes fits behind index `w`, contiguously and within one lap of the
      cached read index. */
  ghost predicate Fits(s: State, g: Indices, w: nat, size: u16)
    requires WellFormed(s)
  {
    8 <= size && Mod(w, s.cnt) + BlkSz(size) <= s.cnt && w + BlkSz(size) <= g.rc + s.cnt
  }

  ghost predicate ProducerOK(s: State, g: Indices)
    requires WellFormed(s)
  {
    match s.producer
    case Idle => OneRewind(s, g)
    case LoadRead(size) => OneRewind(s, g) && 8 <= size
    case Mark(size) =>
      && g.w == g.wa && 8 <= size
      && s.cnt - Mod(g.w, s.cnt) < BlkSz(size)
      && g.w + (s.cnt - Mod(g.w, s.cnt)) + BlkSz(size) <= g.rc + s.cnt
    case SetSize(size) => OneRewind(s, g) && Fits(s, g, g.w, size)
    case Filling(size) => OneRewind(s, g) && Fits(s, g, g.w, size) && s.blk[Mod(g.w, s.cnt)].size == size
    case Publish(msg) =>
      && LegalMessage(msg) && |msg| <= g.w
      && g.w == Position(s.blk, g.wa) + |msg|
      && Stored(s.blk, g.w - |msg|, msg)
  }

  ghost predicate ConsumerOK(s: State, g: Indices, q: seq<Message>)
    requires WellFormed(s)
  {
    match s.consumer
    case Ready => true
    case LoadSize(w) => q != [] && w == Wrap(g.seen) && SeenMessage(s, g, q)
    case Rewind(r, w) =>
      && q != [] && w == Wrap(g.seen) && SeenMessage(s, g, q)
      && g.r < Position(s.blk, g.r) && r == Wrap(Position(s.blk, g.r))
    case Have => q != [] && Position(s.blk, g.r) == g.r
    case Release(r, msg) => q != [] && Position(s.blk, g.r) == g.r && msg == q[0] && r == Wrap(g.r + |msg|)
  }

  /** The published index the consumer has loaded lies behind at least one whole message. */
  ghost predicate SeenMessage(s: State, g: Indices, q: seq<Message>)
    requires WellFormed(s) && q != []
  {
    Position(s.blk, g.r) + |q[0]| <= g.seen <= g.wa
  }

  ghost predicate Inv(s: State, g: Indices, q: seq<Message>) {
    && WellFormed(s) && s.cnt <= 0x400_0000 && M32 % s.cnt == 0
    && s.writeIdx == Wrap(g.w) && s.writeIdxAtom == Wrap(g.wa)
    && s.readIdxCach == Wrap(g.rc) && s.readIdx == Wrap(g.r)
    && g.rc <= g.r <= g.wa <= g.w <= g.rc + s.cnt
    && Unreleased(s, q)
    && Chain(s.blk, g.r, q, g.wa)
    && ProducerOK(s, g)
    && ConsumerOK(s, g, q)
  }

  lemma StartOK(cnt: nat)
    requires LegalCount(cnt)
    ensures Inv(Start(cnt), Indices(0, 0, 0, 0, 0), [])
  {
    LegalCountFacts(cnt);
  }

  // ----- Allocation

  /** The blocks an allocation takes, skipped ones included. */
  function Demand(cnt: nat, w: nat, size: u16): nat
    requires cnt > 0
  {
    var padding := cnt - Mod(w, cnt);
    BlkSz(size) + if BlkSz(size) > padding then padding else 0
  }

  /** The signed comparison of wrapped indices is exact: there is room if and only if the message,
      with the blocks skipped before it, ends within one lap of the cached read index. */
  lemma RoomIsExact(s: State, w: nat, rc: nat, size: u16)
    requires WellFormed(s) && s.cnt <= 0x400_0000 && M32 % s.cnt == 0
    requires s.writeIdx == Wrap(w) && s.readIdxCach == Wrap(rc) && rc <= w <= rc + s.cnt
    ensures HasRoom(s, size) <==> w + Demand(s.cnt, w, size) <= rc + s.cnt
    ensures NeedsRewind(s, size) <==> BlkSz(size) > s.cnt - Mod(w, s.cnt)
  {
    hide Mod;
    ModOfWrap(w, s.cnt);
    var d := Demand(s.cnt, w, size);
    assert MinReadIdx(s, size) == Wrap(w + d - s.cnt) by { WrapAddWrap(w, d - s.cnt); }
    DiffExact(rc, w + d - s.cnt);
  }

  lemma GrantedOK(s: State, g: Indices, q: seq<Message>, size: u16)
    requires Inv(s, g, q) && OneRewind(s, g) && 8 <= size && HasRoom(s, size)
    ensures ProducerOK(s.(producer := Granted(s, size)), g)
  {
    hide Mod, Chain;
    RoomIsExact(s, g.w, g.rc, size);
    if NeedsRewind(s, size) && g.w != g.wa {
      PositionBounds(s.blk, g.wa);
    }
  }

  // ----- The producer's steps

  lemma StepAlloc(s: State, g: Indices, q: seq<Message>, payload: u16)
    requires Inv(s, g, q) && Enabled(s, Alloc(payload))
    ensures Inv(Step(s, Alloc(payload)), g, q)
  {
    hide Mod, Chain, BlkSz, HasRoom, Granted, OneRewind, ConsumerOK;
    assert OneRewind(s, g);
    if HasRoom(s, payload + 8) {
      GrantedOK(s, g, q, payload + 8);
    }
    ConsumerFrame(s, Step(s, Alloc(payload)), g, g, q);
    RewindFrame(s, Step(s, Alloc(payload)), g, g);
  }

  /** The consumer's part does not read the producer's state, and may see more published. */
  lemma ConsumerFrame(s: State, s': State, g: Indices, g': Indices, q: seq<Message>)
    requires WellFormed(s) && ConsumerOK(s, g, q) && s'.blk == s.blk && s'.cnt == s.cnt && s'.consumer == s.consumer
    requires g'.r == g.r && g'.seen == g.seen && g'.wa >= g.wa
    ensures ConsumerOK(s', g', q)
  {
    hide Position;
  }

  lemma StepLoadReadIdx(s: State, g: Indices, q: seq<Message>)
    requires Inv(s, g, q) && Enabled(s, LoadReadIdx)
    ensures Inv(Step(s, LoadReadIdx), g.(rc := g.r), q)
  {
    hide Mod, Chain, BlkSz, HasRoom, Granted, OneRewind, ConsumerOK;
    var size := s.producer.size;
    var s1 := s.(readIdxCach := s.readIdx);
    var g1 := g.(rc := g.r);
    assert OneRewind(s, g);
    assert OneRewind(s1, g1) by { RewindFrame(s, s1, g, g1); }
    ConsumerFrame(s, s1, g, g1, q);
    if HasRoom(s1, size) {
      GrantedOK(s1, g1, q, size);
    }
    ConsumerFrame(s1, Step(s, LoadReadIdx), g1, g1, q);
    RewindFrame(s1, Step(s, LoadReadIdx), g1, g1);
  }

  lemma RewindFrame(s: State, s': State, g: Indices, g': Indices)
    requires WellFormed(s) && OneRewind(s, g) && s'.blk == s.blk && s'.cnt == s.cnt && g'.w == g.w && g'.wa == g.wa
    ensures OneRewind(s', g')
  {
    hide Position;
  }

  /** A write by the producer, on a block less than a lap ahead of the read index, is invisible to
      the consumer. */
  lemma WriteIsInvisible(s: State, g: Indices, q: seq<Message>, i: nat, b: Block)
    requires Inv(s, g, q) && g.wa <= i < g.r + s.cnt
    ensures var s' := s.(blk := s.blk[Mod(i, s.cnt) := b]);
      && Chain(s'.blk, g.r, q, g.wa) && ConsumerOK(s', g, q)
      && SameBlocks(s.blk, s'.blk, g.r, i)
  {
    hide Mod, ProducerOK, Chain, Position;
    var blk' := s.blk[Mod(i, s.cnt) := b];
    forall k: nat | g.r <= k < i
      ensures blk'[Mod(k, s.cnt)] == s.blk[Mod(k, s.cnt)]
    {
      ModDistinct(k, i, s.cnt);
    }
    SameChain(s.blk, blk', g.r, q, g.wa);
    ChainBounds(s.blk, g.r, q, g.wa);
    if q != [] {
      SamePosition(s.blk, blk', g.r);
    }
  }

  lemma StepStoreMark(s: State, g: Indices, q: seq<Message>)
    requires Inv(s, g, q) && Enabled(s, StoreMark)
    ensures Inv(Step(s, StoreMark), g.(w := g.w + (s.cnt - Mod(g.w, s.cnt))), q)
  {
    hide Mod, Chain, BlkSz, ConsumerOK;
    ModOfWrap(g.w, s.cnt);
    ModNextLap(g.w, s.cnt);
    var at := Mod(g.w, s.cnt);
    var b := s.blk[at].(size := 0);
    WriteIsInvisible(s, g, q, g.w, b);
    var s' := Step(s, StoreMark);
    var g' := g.(w := g.w + (s.cnt - at));
    WrapAddWrap(g.w, s.cnt - at);
    ConsumerFrame(s.(blk := s.blk[at := b]), s', g, g', q);
    assert Position(s'.blk, g.wa) == g'.w;
  }

  lemma StepStoreSize(s: State, g: Indices, q: seq<Message>)
    requires Inv(s, g, q) && Enabled(s, StoreSize)
    ensures Inv(Step(s, StoreSize), g, q)
  {
    hide Mod, Chain, BlkSz, ConsumerOK;
    ModOfWrap(g.w, s.cnt);
    BlkSzPositive(s.producer.size);
    var at := Mod(g.w, s.cnt);
    var b := s.blk[at].(size := s.producer.size);
    WriteIsInvisible(s, g, q, g.w, b);
    var s' := Step(s, StoreSize);
    ConsumerFrame(s.(blk := s.blk[at := b]), s', g, g, q);
    KeepSkipped(s, s', g, g.w, b);
  }

  lemma BlkSzPositive(size: u16)
    ensures 8 <= size ==> BlkSz(size) >= 1
  {
  }

  /** Writing behind a rewind marker keeps the marker. */
  lemma KeepSkipped(s: State, s': State, g: Indices, i: nat, b: Block)
    requires WellFormed(s) && OneRewind(s, g) && g.w <= i < g.wa + s.cnt
    requires s'.blk == s.blk[Mod(i, s.cnt) := b] && s'.cnt == s.cnt
    ensures OneRewind(s', g)
  {
    hide Mod;
    if g.w != g.wa {
      ModDistinct(g.wa, i, s.cnt);
    }
  }

  lemma StepFill(s: State, g: Indices, q: seq<Message>, k: nat, block: Block)
    requires Inv(s, g, q) && Enabled(s, Fill(k, block))
    ensures Inv(Step(s, Fill(k, block)), g, q)
  {
    hide Mod, Chain, BlkSz, ConsumerOK;
    ModOfWrap(g.w, s.cnt);
    ModSmall(g.w, k, s.cnt);
    WriteIsInvisible(s, g, q, g.w + k, block);
    var s' := Step(s, Fill(k, block));
    ConsumerFrame(s.(blk := s.blk[Mod(g.w + k, s.cnt) := block]), s', g, g, q);
    KeepSkipped(s, s', g, g.w + k, block);
  }

  lemma StepPush(s: State, g: Indices, q: seq<Message>)
    requires Inv(s, g, q) && Enabled(s, Push)
    ensures Inv(Step(s, Push), g.(w := g.w + BlkSz(s.producer.size)), q)
  {
    hide Mod, Chain, BlkSz, ConsumerOK, Wrap;
    ModOfWrap(g.w, s.cnt);
    var size := s.producer.size;
    BlkSzPositive(size);
    WrapAddWrap(g.w, BlkSz(size));
    var g' := g.(w := g.w + BlkSz(size));
    ConsumerFrame(s, Step(s, Push), g, g', q);
  }

  lemma StepStoreWriteIdx(s: State, g: Indices, q: seq<Message>)
    requires Inv(s, g, q) && Enabled(s, StoreWriteIdx)
    ensures Inv(Step(s, StoreWriteIdx), g.(wa := g.w), q + [s.producer.msg])
  {
    hide Mod, Chain, BlkSz, ConsumerOK, Position, Stored, LegalMessage;
    var msg := s.producer.msg;
    PositionBounds(s.blk, g.wa);
    ChainAppend(s.blk, g.r, q, g.wa, msg);
    var s' := Step(s, StoreWriteIdx);
    assert s'.pushed[|s.popped|..] == q + [msg];
    MoreQueued(s, s', g, g.(wa := g.w), q, msg);
  }

  lemma MoreQueued(s: State, s': State, g: Indices, g': Indices, q: seq<Message>, m: Message)
    requires WellFormed(s) && ConsumerOK(s, g, q) && s'.blk == s.blk && s'.cnt == s.cnt && s'.consumer == s.consumer
    requires g'.r == g.r && g'.seen == g.seen && g'.wa >= g.wa
    ensures ConsumerOK(s', g', q + [m])
  {
  }

  // ----- The consumer's steps

  lemma ProducerFrame(s: State, s': State, g: Indices, g': Indices)
    requires WellFormed(s) && ProducerOK(s, g) && s'.blk == s.blk && s'.cnt == s.cnt && s'.producer == s.producer
    requires g'.w == g.w && g'.wa == g.wa && g'.rc == g.rc
    ensures ProducerOK(s', g')
  {
    hide Position, Mod, BlkSz, Stored;
  }

  /** `Front` returns null at its first test if and only if every published message has been
      released. */
  lemma StepFront(s: State, g: Indices, q: seq<Message>)
    requires Inv(s, g, q) && Enabled(s, Front)
    ensures Inv(Step(s, Front), g.(seen := g.wa), q)
    ensures Step(s, Front).consumer.Ready? <==> q == []
  {
    hide Mod, BlkSz, ProducerOK, Stored, LegalMessage;
    ChainBounds(s.blk, g.r, q, g.wa);
    assert s.readIdx == s.writeIdxAtom <==> g.r == g.wa by { WrapInjective(g.r, g.wa); }
    ProducerFrame(s, Step(s, Front), g, g.(seen := g.wa));
    if q != [] {
      ChainBounds(s.blk, Position(s.blk, g.r) + |q[0]|, q[1..], g.wa);
    }
  }

  lemma WrapInjective(a: nat, b: nat)
    requires a <= b < a + M32
    ensures Wrap(a) == Wrap(b) <==> a == b
  {
  }

  lemma StepLoadHeader(s: State, g: Indices, q: seq<Message>)
    requires Inv(s, g, q) && Enabled(s, LoadHeader)
    ensures Inv(Step(s, LoadHeader), g, q)
  {
    hide BlkSz, ProducerOK, Stored, LegalMessage, Mod, Chain;
    ModOfWrap(g.r, s.cnt);
    WrapAddWrap(g.r, s.cnt - Mod(g.r, s.cnt));
    ProducerFrame(s, Step(s, LoadHeader), g, g);
  }

  /** After a rewind the second test never finds the queue empty. */
  lemma StepStoreRewind(s: State, g: Indices, q: seq<Message>)
    requires Inv(s, g, q) && Enabled(s, StoreRewind)
    ensures Inv(Step(s, StoreRewind), g.(r := Position(s.blk, g.r)), q)
    ensures Step(s, StoreRewind).consumer.Have?
  {
    hide BlkSz, ProducerOK, Stored, Mod;
    var p := Position(s.blk, g.r);
    ChainBounds(s.blk, p + |q[0]|, q[1..], g.wa);
    PositionBounds(s.blk, g.r);
    assert p != g.seen && Wrap(p) != Wrap(g.seen) by { WrapInjective(p, g.seen); }
    assert Position(s.blk, p) == p by { FirstIsMessage(s.blk, p, q[0]); }
    ProducerFrame(s, Step(s, StoreRewind), g, g.(r := p));
  }

  lemma FirstIsMessage(blk: seq<Block>, p: nat, m: Message)
    requires blk != [] && LegalMessage(m) && Stored(blk, p, m)
    ensures Position(blk, p) == p && blk[Mod(p, |blk|)] == m[0]
  {
    hide Mod;
  }

  /** Pop reads the message's own size, and the blocks it releases are the message's. */
  lemma StepPop(s: State, g: Indices, q: seq<Message>)
    requires Inv(s, g, q) && Enabled(s, Pop)
    ensures Inv(Step(s, Pop), g, q)
  {
    hide BlkSz, ProducerOK, Mod;
    ModOfWrap(g.r, s.cnt);
    FirstIsMessage(s.blk, g.r, q[0]);
    WrapAddWrap(g.r, |q[0]|);
    ProducerFrame(s, Step(s, Pop), g, g);
  }

  lemma StepStoreReadIdx(s: State, g: Indices, q: seq<Message>)
    requires Inv(s, g, q) && Enabled(s, StoreReadIdx)
    ensures q != [] && Inv(Step(s, StoreReadIdx), g.(r := g.r + |q[0]|), q[1..])
  {
    hide BlkSz, ProducerOK, Mod, Stored, LegalMessage, Position;
    ChainBounds(s.blk, g.r + |q[0]|, q[1..], g.wa);
    var s' := Step(s, StoreReadIdx);
    ProducerFrame(s, s', g, g.(r := g.r + |q[0]|));
    var n := |s.popped|;
    assert s.pushed[n] == q[0];
    assert s.pushed[..n + 1] == s.pushed[..n] + [q[0]];
    assert s.pushed[n + 1..] == q[1..];
  }
}
