/** The single-producer single-consumer ring as a state machine over individual loads and stores.

    A block is 64 bytes; its first two are the `size` field a header would have there.  The
    indices run freely and wrap at 2^32.  Each action is one access to memory the other thread
    can see, together with the private computation around it; any interleaving of the actions of
    the two threads is a run.
 */
module Ring {
  import opened Words

  /** `data` stands for the other 62 bytes. */
  datatype Block = Block(size: u16, data: nat)

  type Message = seq<Block>

  /** Where the producer stands.  `size` includes the header. */
  datatype Producer =
    | Idle
    | LoadRead(size: u16)      // the cached read index was not enough
    | Mark(size: u16)          // about to store the rewind marker
    | SetSize(size: u16)       // about to store the size of the new message
    | Filling(size: u16)       // Alloc has returned the header
    | Publish(msg: Message)    // about to store the published index

  /** Where the consumer stands.  `w` and `r` are index values loaded or computed. */
  datatype Consumer =
    | Ready
    | LoadSize(w: u32)         // not empty; about to load the size at the read index
    | Rewind(r: u32, w: u32)   // about to store the rewound read index
    | Have                     // Front has returned the message at the read index
    | Release(r: u32, msg: Message)  // Pop is about to store the read index

  /** The shared memory, the private variables of both sides, and the history of messages
      published and released. */
  datatype State = State(
    cnt: nat, blk: seq<Block>,
    writeIdx: u32, writeIdxAtom: u32, readIdxCach: u32, readIdx: u32,
    producer: Producer, consumer: Consumer,
    pushed: seq<Message>, popped: seq<Message>)

  datatype Action =
    | Alloc(size: u16)
    | LoadReadIdx
    | StoreMark
    | StoreSize
    | Fill(k: nat, block: Block)
    | Push
    | StoreWriteIdx
    | Front
    | LoadHeader
    | StoreRewind
    | Pop
    | StoreReadIdx

  /** `(size + sizeof(Block) - 1) / sizeof(Block)` */
  function BlkSz(size: u16): (n: nat)
    ensures size > 0 ==> n >= 1
  {
    (size + 63) / 64
  }

  /** The blocks hold `size` bytes, 64 each, and one block fewer does not. */
  lemma BlocksCover(size: u16)
    requires size > 0
    ensures 64 * (BlkSz(size) - 1) < size <= 64 * BlkSz(size)
  {
  }

  function Mod(i: nat, cnt: nat): (m: nat)
    requires cnt > 0
    ensures m < cnt
  {
    i % cnt
  }

  /** The blocks up to the end of the array. */
  function Padding(s: State): nat
    requires s.cnt > 0
  {
    s.cnt - Mod(s.writeIdx, s.cnt)
  }

  predicate NeedsRewind(s: State, size: u16)
    requires s.cnt > 0
  {
    BlkSz(size) > Padding(s)
  }

  /** `min_read_idx`, which wraps below zero. */
  function MinReadIdx(s: State, size: u16): u32
    requires s.cnt > 0
  {
    Wrap(s.writeIdx + BlkSz(size) + (if NeedsRewind(s, size) then Padding(s) else 0) - s.cnt)
  }

  predicate HasRoom(s: State, size: u16)
    requires s.cnt > 0
  {
    Diff(s.readIdxCach, MinReadIdx(s, size)) >= 0
  }

  function Granted(s: State, size: u16): Producer
    requires s.cnt > 0
  {
    if NeedsRewind(s, size) then Mark(size) else SetSize(size)
  }

  function Start(cnt: nat): State {
    State(cnt, seq(cnt, _ => Block(0, 0)), 0, 0, 0, 0, Idle, Ready, [], [])
  }

  predicate WellFormed(s: State) {
    s.cnt > 0 && |s.blk| == s.cnt
  }

  /** The blocks `at..at + n` of the array. */
  predicate InArray(s: State, at: nat, n: nat) {
    at + n <= |s.blk|
  }

  /** What the code and its caller may do next.  A caller may abandon an allocation and ask for
      another one; it fills only blocks it was given and leaves the size field alone; it pops only
      after `Front` has returned a message. */
  predicate Enabled(s: State, a: Action) {
    WellFormed(s) &&
    match a
    case Alloc(size) => (s.producer.Idle? || s.producer.Filling?) && size + 8 < M16
    case LoadReadIdx => s.producer.LoadRead?
    case StoreMark => s.producer.Mark?
    case StoreSize => s.producer.SetSize?
    case Fill(k, block) =>
      && s.producer.Filling? && k < BlkSz(s.producer.size)
      && InArray(s, Mod(s.writeIdx, s.cnt), k + 1)
      && (k == 0 ==> block.size == s.producer.size)
    case Push =>
      && s.producer.Filling?
      && InArray(s, Mod(s.writeIdx, s.cnt), BlkSz(s.blk[Mod(s.writeIdx, s.cnt)].size))
    case StoreWriteIdx => s.producer.Publish?
    case Front => s.consumer.Ready? || s.consumer.Have?
    case LoadHeader => s.consumer.LoadSize?
    case StoreRewind => s.consumer.Rewind?
    case Pop => s.consumer.Have? && InArray(s, Mod(s.readIdx, s.cnt), BlkSz(s.blk[Mod(s.readIdx, s.cnt)].size))
    case StoreReadIdx => s.consumer.Release?
  }

  function Step(s: State, a: Action): State
    requires Enabled(s, a)
  {
    match a
    case Alloc(payload) =>
      var size := payload + 8;
      s.(producer := if HasRoom(s, size) then Granted(s, size) else LoadRead(size))
    case LoadReadIdx =>
      var s' := s.(readIdxCach := s.readIdx);
      var size := s.producer.size;
      s'.(producer := if HasRoom(s', size) then Granted(s', size) else Idle)
    case StoreMark =>
      var at := Mod(s.writeIdx, s.cnt);
      s.(blk := s.blk[at := s.blk[at].(size := 0)],
         writeIdx := Wrap(s.writeIdx + Padding(s)),
         producer := SetSize(s.producer.size))
    case StoreSize =>
      var at := Mod(s.writeIdx, s.cnt);
      s.(blk := s.blk[at := s.blk[at].(size := s.producer.size)], producer := Filling(s.producer.size))
    case Fill(k, block) => s.(blk := s.blk[Mod(s.writeIdx, s.cnt) + k := block])
    case Push =>
      var at := Mod(s.writeIdx, s.cnt);
      var n := BlkSz(s.blk[at].size);
      s.(writeIdx := Wrap(s.writeIdx + n), producer := Publish(s.blk[at..at + n]))
    case StoreWriteIdx =>
      s.(writeIdxAtom := s.writeIdx, producer := Idle, pushed := s.pushed + [s.producer.msg])
    case Front =>
      s.(consumer := if s.readIdx == s.writeIdxAtom then Ready else LoadSize(s.writeIdxAtom))
    case LoadHeader =>
      var at := Mod(s.readIdx, s.cnt);
      s.(consumer := if s.blk[at].size == 0 then Rewind(Wrap(s.readIdx + s.cnt - at), s.consumer.w) else Have)
    case StoreRewind =>
      s.(readIdx := s.consumer.r, consumer := if s.consumer.r == s.consumer.w then Ready else Have)
    case Pop =>
      var at := Mod(s.readIdx, s.cnt);
      var n := BlkSz(s.blk[at].size);
      s.(consumer := Release(Wrap(s.readIdx + n), s.blk[at..at + n]))
    case StoreReadIdx =>
      s.(readIdx := s.consumer.r, consumer := Ready, popped := s.popped + [s.consumer.msg])
  }

  predicate IsRun(s: State, run: seq<Action>)
    decreases |run|
  {
    run == [] || (Enabled(s, run[0]) && IsRun(Step(s, run[0]), run[1..]))
  }

  function After(s: State, run: seq<Action>): State
    requires IsRun(s, run)
    decreases |run|
  {
    if run == [] then s else After(Step(s, run[0]), run[1..])
  }

  // ----- Remainders by the number of blocks

  lemma ModSmall(i: nat, k: nat, cnt: nat)
    requires cnt > 0 && Mod(i, cnt) + k < cnt
    ensures Mod(i + k, cnt) == Mod(i, cnt) + k
  {
    DivModUnique(i + k, cnt, i / cnt, Mod(i, cnt) + k);
  }

  lemma ModNextLap(i: nat, cnt: nat)
    requires cnt > 0
    ensures Mod(i + (cnt - Mod(i, cnt)), cnt) == 0
  {
    var q := i / cnt;
    assert i + (cnt - Mod(i, cnt)) == (q + 1) * cnt;
    DivModUnique(i + (cnt - Mod(i, cnt)), cnt, q + 1, 0);
  }

  lemma DivModUnique(i: nat, cnt: nat, q: int, r: nat)
    requires cnt > 0 && i == q * cnt + r && r < cnt
    ensures i % cnt == r
  {
    var d := i / cnt - q;
    assert i == (i / cnt) * cnt + i % cnt;
    assert d * cnt == r - i % cnt;
    assert d >= 1 ==> d * cnt >= cnt;
    assert d <= -1 ==> d * cnt <= -1 * cnt;
  }

  /** Indices less than one lap apart fall on different blocks. */
  lemma ModDistinct(i: nat, j: nat, cnt: nat)
    requires cnt > 0 && i < j < i + cnt
    ensures Mod(i, cnt) != Mod(j, cnt)
  {
    var d := j / cnt - i / cnt;
    assert i == (i / cnt) * cnt + i % cnt && j == (j / cnt) * cnt + j % cnt;
    assert d * cnt == j - i + i % cnt - j % cnt by { MulDistributes(d, i / cnt, cnt); }
    assert d >= 1 ==> d * cnt >= cnt;
    assert d <= 0 ==> d * cnt <= 0;
  }

  /** Wrapping at 2^32 does not change the block when the number of blocks divides 2^32. */
  lemma ModOfWrap(i: nat, cnt: nat)
    requires cnt > 0 && M32 % cnt == 0
    ensures Mod(Wrap(i), cnt) == Mod(i, cnt)
  {
    var k, l := i / M32, M32 / cnt;
    assert M32 == l * cnt;
    assert i == k * M32 + Wrap(i);
    var w := Wrap(i);
    assert w == (w / cnt) * cnt + w % cnt;
    assert k * M32 == (k * l) * cnt by { MulAssociative(k, l, cnt); }
    assert i == (k * l + w / cnt) * cnt + w % cnt by { MulDistributes(k * l, w / cnt, cnt); }
    DivModUnique(i, cnt, k * l + w / cnt, w % cnt);
  }

  lemma MulAssociative(a: int, b: int, c: int)
    ensures a * (b * c) == (a * b) * c
  {
  }

  lemma MulDistributes(a: int, b: int, c: int)
    ensures (a + b) * c == a * c + b * c
  {
  }

  function Pow2(k: nat): nat {
    if k == 0 then 1 else 2 * Pow2(k - 1)
  }

  lemma {:induction false} Pow2Divides(k: nat, m: nat)
    requires k <= m
    ensures Pow2(k) > 0 && Pow2(m) % Pow2(k) == 0
    decreases m
  {
    Pow2Positive(k);
    if k < m {
      Pow2Divides(k, m - 1);
      var l := Pow2(m - 1) / Pow2(k);
      assert Pow2(m - 1) == l * Pow2(k);
      assert Pow2(m) == (2 * l) * Pow2(k) by { MulAssociative(2, l, Pow2(k)); }
      DivModUnique(Pow2(m), Pow2(k), 2 * l, 0);
    } else {
      DivModUnique(Pow2(m), Pow2(k), 1, 0);
    }
  }

  lemma {:induction false} Pow2Positive(k: nat)
    ensures Pow2(k) > 0
  {
    if k > 0 {
      Pow2Positive(k - 1);
    }
  }

  lemma Pow2Values()
    ensures Pow2(25) == 0x200_0000 && Pow2(32) == M32
  {
    assert Pow2(8) == 0x100;
    assert Pow2(16) == 0x1_0000;
    assert Pow2(20) == 0x10_0000;
    assert Pow2(24) == 0x100_0000;
    assert Pow2(28) == 0x1000_0000;
  }

  /** Every size the queue can be declared with: a power of two, less than 2^26 blocks. */
  predicate LegalCount(cnt: nat) {
    exists k: nat :: k < 26 && cnt == Pow2(k)
  }

  lemma LegalCountFacts(cnt: nat)
    requires LegalCount(cnt)
    ensures 0 < cnt <= 0x400_0000 && M32 % cnt == 0
  {
    var k: nat :| k < 26 && cnt == Pow2(k);
    Pow2Divides(k, 32);
    Pow2Values();
    Pow2Monotone(k, 25);
    Pow2Positive(k);
  }

  lemma {:induction false} Pow2Monotone(k: nat, m: nat)
    requires k <= m
    ensures Pow2(k) <= Pow2(m)
    decreases m
  {
    if k < m {
      Pow2Monotone(k, m - 1);
    }
  }
}
