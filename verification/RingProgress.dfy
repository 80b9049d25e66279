/** What each operation of the ring achieves: when `Alloc` succeeds, that what is written is what is
    published, and that `Front` and `Pop` hand over the next message and free its blocks. */
module RingProgress {
  import opened Words
  import opened Ring
  import opened RingInvariant
  import opened RingTheorems

  /** On any ring, drained or not, `Alloc` refuses if and only if the blocks not yet freed, those it
      would skip, and those of the message do not fit together. */
  lemma AllocDecision(s: State, payload: u16)
    requires Attainable(s) && Enabled(s, Alloc(payload))
    ensures var n, at := BlkSz(payload + 8), Mod(s.writeIdx, s.cnt);
      var skipped := if at + n <= s.cnt then 0 else s.cnt - at;
      Refused(s, payload) <==> Behind(s.writeIdx, s.readIdx) + skipped + n > s.cnt
  {
    hide Attainable, Inv, Refused, BlkSz, Mod;
    AttainableConsistent(s);
    var g, q :| Inv(s, g, q);
    DecisionAnywhere(s, g, q, payload);
  }

  /** The blocks the caller of `Alloc` may fill. */
  function Reserved(s: State): Message
    requires WellFormed(s) && s.producer.Filling?
    requires InArray(s, Mod(s.writeIdx, s.cnt), BlkSz(s.producer.size))
  {
    var at := Mod(s.writeIdx, s.cnt);
    s.blk[at..at + BlkSz(s.producer.size)]
  }

  lemma ReservedInArray(s: State)
    requires Attainable(s) && s.producer.Filling?
    ensures WellFormed(s) && InArray(s, Mod(s.writeIdx, s.cnt), BlkSz(s.producer.size))
    ensures BlkSz(s.producer.size) > 0 && s.blk[Mod(s.writeIdx, s.cnt)].size == s.producer.size
  {
    hide Attainable, Inv, BlkSz;
    AttainableConsistent(s);
    var g, q :| Inv(s, g, q);
    IndexFacts(s, g, q);
    BlocksCover(s.producer.size);
    FilledSize(s, g, q);
  }

  lemma FilledSize(s: State, g: Indices, q: seq<Message>)
    requires Inv(s, g, q) && s.producer.Filling?
    ensures s.blk[Mod(s.writeIdx, s.cnt)].size == s.producer.size
  {
    hide Mod, BlkSz, Chain, ConsumerOK;
    ModOfWrap(g.w, s.cnt);
  }

  /** Every reserved block can be written, that changes this block alone, and nothing the consumer does
      changes any. */
  lemma FillWrites(s: State, k: nat, b: Block)
    requires Attainable(s) && s.producer.Filling? && k < BlkSz(s.producer.size)
    requires k == 0 ==> b.size == s.producer.size
    ensures Enabled(s, Fill(k, b))
    ensures var s' := Step(s, Fill(k, b));
      && s' == s.(blk := s'.blk) && Attainable(s') && WellFormed(s')
      && InArray(s, Mod(s.writeIdx, s.cnt), BlkSz(s.producer.size)) && Reserved(s') == Reserved(s)[k := b]
  {
    hide Attainable, BlkSz, Mod;
    ReservedInArray(s);
    AttainableStep(s, Fill(k, b));
  }

  predicate ByConsumer(a: Action) {
    a.Front? || a.LoadHeader? || a.StoreRewind? || a.Pop? || a.StoreReadIdx?
  }

  lemma ConsumerKeepsReserved(s: State, a: Action)
    requires Attainable(s) && s.producer.Filling? && Enabled(s, a) && ByConsumer(a)
    ensures Step(s, a).producer == s.producer && Step(s, a).blk == s.blk && Step(s, a).writeIdx == s.writeIdx
  {
  }

  /** `Push` publishes exactly the reserved blocks, as they have been filled. */
  lemma PushPublishes(s: State)
    requires Attainable(s) && s.producer.Filling?
    ensures WellFormed(s) && InArray(s, Mod(s.writeIdx, s.cnt), BlkSz(s.producer.size))
    ensures Enabled(s, Push) && Enabled(Step(s, Push), StoreWriteIdx)
    ensures var s' := Step(Step(s, Push), StoreWriteIdx);
      && Attainable(s') && s'.producer.Idle? && s'.pushed == s.pushed + [Reserved(s)]
      && s'.writeIdx == s'.writeIdxAtom == Wrap(s.writeIdx + BlkSz(s.producer.size))
      && s' == s.(writeIdx := s'.writeIdx, writeIdxAtom := s'.writeIdx, producer := Idle, pushed := s'.pushed)
  {
    hide Attainable, BlkSz, Mod;
    ReservedInArray(s);
    AttainableStep(s, Push);
    AttainableStep(Step(s, Push), StoreWriteIdx);
  }

  /** `Front` and `Pop`, run without interruption, with or without a rewind. */
  function ConsumerRun(rewinds: bool): seq<Action> {
    if rewinds then [Front, LoadHeader, StoreRewind, Pop, StoreReadIdx] else [Front, LoadHeader, Pop, StoreReadIdx]
  }

  lemma OneStep(s: State, a: Action)
    requires Enabled(s, a)
    ensures IsRun(s, [a]) && After(s, [a]) == Step(s, a)
  {
    hide Enabled, Step;
    assert [a][1..] == [];
    assert IsRun(Step(s, a), []);
  }

  /** The second half: with the message in hand. */
  lemma PopHeld(s: State) returns (s': State)
    requires Attainable(s) && s.consumer.Have?
    ensures |s.popped| < |s.pushed|
    ensures IsRun(s, [Pop, StoreReadIdx]) && s' == After(s, [Pop, StoreReadIdx])
    ensures var m := s.pushed[|s.popped|];
      s' == s.(consumer := Ready, popped := s.popped + [m], readIdx := Wrap(s.readIdx + |m|))
  {
    hide Attainable, BlkSz, Mod;
    FirstInFirstOut(s);
    var s1 := Step(s, Pop);
    AttainableStep(s, Pop);
    FirstInFirstOut(s1);
    s' := Step(s1, StoreReadIdx);
    TwoSteps(s, Pop, StoreReadIdx);
  }

  lemma TwoSteps(s: State, a: Action, b: Action)
    requires Enabled(s, a) && Enabled(Step(s, a), b)
    ensures IsRun(s, [a, b]) && After(s, [a, b]) == Step(Step(s, a), b)
  {
    hide Enabled, Step;
    OneStep(Step(s, a), b);
    assert [a, b][1..] == [b];
  }

  lemma {:induction false} ThenRun(s: State, first: seq<Action>, run: seq<Action>)
    requires IsRun(s, first) && IsRun(After(s, first), run)
    ensures IsRun(s, first + run) && After(s, first + run) == After(After(s, first), run)
    decreases |first|
  {
    hide Enabled, Step;
    if first == [] {
      assert first + run == run;
    } else {
      ThenRun(Step(s, first[0]), first[1..], run);
      assert (first + run)[1..] == first[1..] + run;
    }
  }

  /** The first half: `Front` returns the next message. */
  lemma FrontHolds(s: State) returns (s': State)
    requires Attainable(s) && s.consumer.Ready? && s.popped != s.pushed
    ensures WellFormed(s) && Attainable(s')
    ensures var at := Mod(s.readIdx, s.cnt);
      var rewinds := s.blk[at].size == 0;
      var run := if rewinds then [Front, LoadHeader, StoreRewind] else [Front, LoadHeader];
      && IsRun(s, run) && s' == After(s, run)
      && s' == s.(consumer := Have, readIdx := if rewinds then Wrap(s.readIdx + s.cnt - at) else s.readIdx)
  {
    hide Attainable, BlkSz, Mod;
    Ownership(s);
    NullMeansEmpty(s);
    var s1 := Step(s, Front);
    AttainableStep(s, Front);
    s' := Step(s1, LoadHeader);
    AttainableStep(s1, LoadHeader);
    TwoSteps(s, Front, LoadHeader);
    if s'.consumer.Rewind? {
      var s2 := s';
      NullMeansEmpty(s2);
      AttainableStep(s2, StoreRewind);
      s' := Step(s2, StoreRewind);
      assert IsRun(s2, [StoreRewind]) && After(s2, [StoreRewind]) == s' by { OneStep(s2, StoreRewind); }
      ThenRun(s, [Front, LoadHeader], [StoreRewind]);
      assert [Front, LoadHeader] + [StoreRewind] == [Front, LoadHeader, StoreRewind];
    }
  }

  /** Unless everything published has been popped, `Front` and `Pop` remove the next message, all of
      it, and free its blocks and those skipped before it. */
  lemma PopRemoves(s: State) returns (s': State)
    requires Attainable(s) && s.consumer.Ready? && s.popped != s.pushed
    ensures |s.popped| < |s.pushed| && WellFormed(s)
    ensures var at, m := Mod(s.readIdx, s.cnt), s.pushed[|s.popped|];
      var rewinds := s.blk[at].size == 0;
      && IsRun(s, ConsumerRun(rewinds)) && s' == After(s, ConsumerRun(rewinds))
      && s'.popped == s.popped + [m]
      && s'.readIdx == Wrap(s.readIdx + (if rewinds then s.cnt - at else 0) + |m|)
      && s' == s.(popped := s'.popped, readIdx := s'.readIdx)
  {
    hide Attainable, Enabled, Step, IsRun, After, Mod, Wrap;
    var s1 := FrontHolds(s);
    s' := PopHeld(s1);
    var at, m := Mod(s.readIdx, s.cnt), s.pushed[|s.popped|];
    var front := if s.blk[at].size == 0 then [Front, LoadHeader, StoreRewind] else [Front, LoadHeader];
    ThenRun(s, front, [Pop, StoreReadIdx]);
    assert front + [Pop, StoreReadIdx] == ConsumerRun(s.blk[at].size == 0);
    WrapAddWrap(s.readIdx + s.cnt - at, |m|);
  }
}
