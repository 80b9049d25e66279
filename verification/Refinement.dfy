/** The connection object does what the protocol machine says.

    Each operation of `PTCPConnection`, whatever the kernel does to its reads and sends, is a run of
    the machine in which only that side acts.  What the object takes for granted of its peer is
    proved of the machine, so the theorems about all runs are theorems about the objects.
 */
module Refinement {
  import opened Words
  import opened MsgHeader
  import opened Wire
  import opened RecvBuffer
  import opened SendQueue
  import opened Flows
  import opened Protocol
  import opened ProtocolSteps
  import opened Recovery
  import opened Reconnect
  import PtcpConn
  import PtcpQueue

  type Connection = PtcpConn.PTCPConnection

  /** The object's values are those of side `x`: its queue, whether it is open, everything received
      since it was opened, and how many messages have been popped since. */
  ghost predicate Matches(q: Queue, open: bool, stream: seq<byte>, taken: nat, w: World, x: Side) {
    && q == w.Ep(x).q
    && (open <==> w.Open(x))
    && (w.ConnOf(x).NoConn? ==> stream == [])
    && (w.ConnOf(x).Conn? ==> Wired(w, x) && stream == w.Received(x) && taken == w.ConnOf(x).taken)
  }

  /** `c` is the connection object of side `x` in the reachable state `w`. */
  ghost predicate Represents(c: Connection, w: World, x: Side)
    reads c, c.recvbuf, c.q, c.q.blk
  {
    && c.Valid() && Reachable(w)
    && c.q.wireLittle == w.le && c.q.blkCnt == w.cap
    && Matches(c.q.model, !c.IsClosed(), c.Stream(), |Apps(w.le, c.consumed)|, w, x)
  }

  /** The beginning: a new queue file and a new object represent their side of the machine's start. */
  method NewEndpoint(blkCnt: nat, hostLittle: bool, wireLittle: bool, initSize: nat, maxSize: nat,
                     heartbeatInterval: int, connectionTimeout: int, ghost x: Side)
    returns (c: Connection)
    requires 8 * blkCnt < M32
    requires initSize % 8 == 0 && maxSize % 8 == 0 && initSize <= maxSize && 2 * maxSize < M32
    ensures fresh(c) && fresh(c.q) && fresh(c.q.blk) && c.IsClosed() && c.fdToClose < 0 && c.maxSize == maxSize
    ensures Represents(c, Start(wireLittle, blkCnt), x)
  {
    hide Reachable, Parsed, Whole, PtcpConn.PTCPConnection.Valid, PtcpQueue.PTCPQueue.Valid;
    var q := new PtcpQueue.PTCPQueue(blkCnt, hostLittle, wireLittle);
    c := new PtcpConn.PTCPConnection(q, initSize, maxSize, heartbeatInterval, connectionTimeout);
    StartReachable(wireLittle, blkCnt);
    NoApps(wireLittle);
    assert c.consumed == [];
  }

  /** What has been sent to `x` on its connection and not been read yet. */
  function Unread(w: World, x: Side): seq<byte>
    requires w.ConnOf(x).Conn? && Wired(w, x)
  {
    w.sessions[w.ConnOf(x).sid].Out(Other(x)).bytes[w.ConnOf(x).rx..]
  }

  /** A read of the socket finds the next bytes of the stream the peer has sent. */
  predicate FromPeer(k: PtcpConn.ReadResult, w: World, x: Side) {
    k.Ready? ==> w.Open(x) && Wired(w, x) && k.avail <= Unread(w, x)
  }

  // ----- Receiving

  lemma ReceivedMore(w: World, x: Side, avail: seq<byte>)
    requires w.ConnOf(x).Conn? && Wired(w, x) && avail <= Unread(w, x)
    ensures w.ConnOf(x).rx + |avail| <= |w.sessions[w.ConnOf(x).sid].Out(Other(x)).bytes|
    ensures w.sessions[w.ConnOf(x).sid].Out(Other(x)).bytes[..w.ConnOf(x).rx + |avail|] == w.Received(x) + avail
  {
  }

  /** What the object expects of its input, the machine guarantees. */
  lemma InputIsHonest(w: World, x: Side, rest: seq<byte>, avail: seq<byte>)
    requires Reachable(w) && w.Open(x) && Wired(w, x) && avail <= Unread(w, x)
    requires rest == w.Received(x)[Parsed(w.le, w.Received(x))..]
    ensures Honest(w.le, rest + avail) && w.Ep(x).q.CoversAll(Acks(w.le, rest + avail))
  {
    hide Reachable, Honest, Acks, Parsed, Queue.CoversAll;
    ReceivedMore(w, x, avail);
    PeerIsHonest(w, x, |avail|);
    SuffixAppend(w.Received(x), Parsed(w.le, w.Received(x)), avail);
  }

  /** Reading `data` and acknowledging the headers in it is the machine's `Front`. */
  lemma FrontMatches(w: World, x: Side, stream: seq<byte>, taken: nat, data: seq<byte>, q': Queue)
    requires Reachable(w) && Matches(w.Ep(x).q, true, stream, taken, w, x) && Free(w, x)
    requires Wired(w, x) && data <= Unread(w, x)
    requires var acks := Acks(w.le, stream[Parsed(w.le, stream)..] + data);
      w.Ep(x).q.CoversAll(acks) && q' == w.Ep(x).q.AckAll(acks)
    ensures Enabled(w, Front(x, |data|))
    ensures Matches(q', true, stream + data, taken, Step(w, Front(x, |data|)), x)
  {
    hide Reachable, Acks, Parsed, Queue.CoversAll, Queue.AckAll, FrontStep;
    ReachableWired(w);
    ReceivedMore(w, x, data);
    FrontEffect(w, x, data, q');
    ReadFurther(w, x, w.Ep(x).(q := q'), data);
  }

  lemma FrontEffect(w: World, x: Side, data: seq<byte>, q': Queue)
    requires Wired(w, x) && w.Open(x) && data <= Unread(w, x)
    requires var stream := w.Received(x);
      var acks := Acks(w.le, stream[Parsed(w.le, stream)..] + data);
      w.Ep(x).q.CoversAll(acks) && q' == w.Ep(x).q.AckAll(acks)
    ensures w.ConnOf(x).rx + |data| <= |w.sessions[w.ConnOf(x).sid].Out(Other(x)).bytes|
    ensures FrontStep(w, x, |data|) == w.Set(x, w.Ep(x).(q := q'), w.ConnOf(x).(rx := w.ConnOf(x).rx + |data|))
  {
    hide Acks, Parsed, Queue.CoversAll, Queue.AckAll;
    var stream := w.Received(x);
    ReceivedMore(w, x, data);
    SuffixAppend(stream, Parsed(w.le, stream), data);
  }

  lemma ReadFurther(w: World, x: Side, e': Endpoint, data: seq<byte>)
    requires w.Open(x) && Wired(w, x) && data <= Unread(w, x)
    ensures var c := w.ConnOf(x);
      Matches(e'.q, true, w.Received(x) + data, c.taken, w.Set(x, e', c.(rx := c.rx + |data|)), x)
  {
  }

  lemma ReachableWired(w: World)
    requires Reachable(w)
    ensures Wired(w, Client) && Wired(w, Server)
  {
    ReachableOK(w);
    ConnsWired(w);
  }

  lemma CloseMatches(w: World, x: Side, q: Queue, stream: seq<byte>, taken: nat)
    requires Reachable(w) && Matches(q, true, stream, taken, w, x)
    ensures Enabled(w, Close(x)) && Matches(q, false, stream, taken, Step(w, Close(x)), x)
  {
    hide Reachable;
    ReachableWired(w);
  }

  /** Reachable states are closed under steps, and so are the runs of one side. */
  lemma Advance(w: World, w1: World, a: Action)
    requires Acts(w, w1, Actor(a)) && Reachable(w1) && Enabled(w1, a)
    ensures Acts(w, Step(w1, a), Actor(a)) && Reachable(Step(w1, a))
  {
    hide Inv, Enabled, Step, IsRun, After;
    ReachableOK(w1);
    var run :| IsRun(w, run) && After(w, run) == w1 && forall i :: 0 <= i < |run| ==> Actor(run[i]) == Actor(a);
    OneStep(w1, a);
    RunConcat(w, run, [a]);
    var le, cap: nat, run0 :| 8 * cap < M32 && IsRun(Start(le, cap), run0) && w1 == After(Start(le, cap), run0);
    RunConcat(Start(le, cap), run0, [a]);
  }

  /** The side that takes a step. */
  function Actor(a: Action): Side {
    match a
    case Push(x, _, _, _) => x
    case Send(x, _, _) => x
    case Beat(x, _) => x
    case Front(x, _) => x
    case Pop(x) => x
    case Close(x) => x
    case Crash(x) => x
    case HandleLogin(_, _) => Server
    case SendLogin => Client
    case FinishLogin(_) => Client
    case AbandonLogin => Client
  }

  /** A run from `w` to `w'` in which only `x` takes steps. */
  ghost predicate Acts(w: World, w': World, x: Side) {
    exists run :: IsRun(w, run) && After(w, run) == w' && forall i :: 0 <= i < |run| ==> Actor(run[i]) == x
  }

  lemma ActsNot(w: World, x: Side)
    ensures Acts(w, w, x)
  {
  }

  lemma StepReachable(w: World, a: Action)
    requires Reachable(w) && Enabled(w, a)
    ensures Reachable(Step(w, a))
  {
    hide Reachable, Enabled, Step, Acts;
    ActsNot(w, Actor(a));
    Advance(w, w, a);
  }

  lemma ActsTrans(w: World, w1: World, w': World, x: Side)
    requires Acts(w, w1, x) && Acts(w1, w', x)
    ensures Acts(w, w', x)
  {
    hide IsRun, After;
    var a :| IsRun(w, a) && After(w, a) == w1 && forall i :: 0 <= i < |a| ==> Actor(a[i]) == x;
    var b :| IsRun(w1, b) && After(w1, b) == w' && forall i :: 0 <= i < |b| ==> Actor(b[i]) == x;
    RunConcat(w, a, b);
  }

  /** The message `m` stands in the buffer at the read index: header in host byte order, then the
      payload. */
  ghost predicate Shows(c: Connection, m: Content)
    reads c, c.recvbuf
  {
    && c.readIdx + HEADER_SIZE + |m.payload| <= c.recvbuf.Length
    && LoadHeader(c.q.hostLittle, c.Mem()[c.readIdx..c.readIdx + HEADER_SIZE]).msgType == m.msgType
    && LoadHeader(c.q.hostLittle, c.Mem()[c.readIdx..c.readIdx + HEADER_SIZE]).size == HEADER_SIZE + |m.payload|
    && c.Mem()[c.readIdx + HEADER_SIZE..c.readIdx + HEADER_SIZE + |m.payload|] == m.payload
  }

  /** The first message not popped yet is the next one the peer pushed. */
  lemma NextItem(w: World, x: Side, first: Item)
    requires Reachable(w) && w.ConnOf(x).Conn? && Wired(w, x)
    requires var its := Apps(w.le, w.Received(x)); w.ConnOf(x).taken < |its| && first == its[w.ConnOf(x).taken]
    ensures |w.Ep(x).popped| < |w.Ep(Other(x)).pushed|
    ensures HEADER_SIZE <= first.header.size <= HEADER_SIZE + |first.body|
    ensures ContentOfItem(first) == ContentOf(w.Ep(Other(x)).pushed[|w.Ep(x).popped|])
  {
    hide Reachable, Linked, TxOK, CrossOK, AppItems, Items;
    ReachableOK(w);
    LinkedSide(w, x);
    var c := w.ConnOf(x);
    PopLinked(w.le, w.cap, w.Ep(x), w.Ep(Other(x)), w.sessions[c.sid].Out(Other(x)), w.sessions[c.sid].Out(x), c.rx,
      c.taken);
  }

  lemma ItemShows(c: Connection, it: Item, m: Msg)
    requires c.InPlace(it) && HEADER_SIZE <= it.header.size <= HEADER_SIZE + |it.body|
    requires ContentOfItem(it) == ContentOf(m)
    ensures Shows(c, ContentOf(m))
  {
  }

  /** The unparsed rest of the stream is what the object keeps as such. */
  lemma RestOfStream(c: Connection)
    requires c.RxValid()
    ensures c.rest == c.Stream()[Parsed(c.q.wireLittle, c.Stream())..]
  {
    hide Parsed, Apps, Layout, Honest;
    c.RxFacts();
    AppsOfStream(c.q.wireLittle, c.consumed, c.pre, c.rest);
    assert c.Stream()[|c.consumed| + |c.pre|..] == c.rest;
  }

  /** A step in which `x` neither pushes nor pops, and the other side does nothing. */
  ghost predicate SameHistory(w: World, w': World, x: Side) {
    && w'.Ep(Other(x)) == w.Ep(Other(x)) && w'.ConnOf(Other(x)) == w.ConnOf(Other(x))
    && w'.Ep(x).pushed == w.Ep(x).pushed && w'.Ep(x).popped == w.Ep(x).popped
    && w'.waiting == w.waiting && w'.le == w.le && w'.cap == w.cap
  }

  lemma FrontHistory(w: World, x: Side, n: nat)
    requires Enabled(w, Front(x, n))
    ensures SameHistory(w, Step(w, Front(x, n)), x)
  {
    hide Acks, Parsed, Queue.CoversAll, Queue.AckAll;
  }

  /** Everything the object may have to say of the machine after an operation. */
  ghost predicate Follows(w: World, w': World, x: Side) {
    Acts(w, w', x) && Reachable(w') && SameHistory(w, w', x)
  }

  lemma CloseFollows(w: World, w1: World, x: Side, q: Queue, stream: seq<byte>, taken: nat)
    requires Follows(w, w1, x) && Matches(q, true, stream, taken, w1, x)
    ensures Enabled(w1, Close(x))
    ensures Follows(w, Step(w1, Close(x)), x) && Matches(q, false, stream, taken, Step(w1, Close(x)), x)
  {
    hide Acts, Reachable;
    CloseMatches(w1, x, q, stream, taken);
    Advance(w, w1, Close(x));
  }

  lemma FrontFollows(w: World, x: Side, stream: seq<byte>, taken: nat, data: seq<byte>, q': Queue)
    requires Reachable(w) && Matches(w.Ep(x).q, true, stream, taken, w, x) && Free(w, x)
    requires Wired(w, x) && data <= Unread(w, x)
    requires var acks := Acks(w.le, stream[Parsed(w.le, stream)..] + data);
      w.Ep(x).q.CoversAll(acks) && q' == w.Ep(x).q.AckAll(acks)
    ensures Enabled(w, Front(x, |data|))
    ensures Follows(w, Step(w, Front(x, |data|)), x)
    ensures Matches(q', true, stream + data, taken, Step(w, Front(x, |data|)), x)
  {
    hide Acts, Reachable, Matches, Acks, Parsed, Enabled, Step, Queue.CoversAll, Queue.AckAll;
    FrontMatches(w, x, stream, taken, data, q');
    FrontHistory(w, x, |data|);
    ActsNot(w, x);
    Advance(w, w, Front(x, |data|));
  }

  lemma StaysPut(w: World, x: Side)
    requires Reachable(w)
    ensures Follows(w, w, x)
  {
  }

  /** After `Front`: a state of the machine that the object's new values match. */
  lemma AfterFront(w: World, x: Side, q: Queue, stream: seq<byte>, taken: nat, wasOpen: bool,
                   data: seq<byte>, q': Queue, open: bool) returns (w': World)
    requires Reachable(w) && Matches(q, wasOpen, stream, taken, w, x) && Free(w, x)
    requires data != [] ==> wasOpen && Wired(w, x) && data <= Unread(w, x)
    requires data == [] ==> q' == q
    requires data != [] ==>
      var acks := Acks(w.le, stream[Parsed(w.le, stream)..] + data);
      q.CoversAll(acks) && q' == q.AckAll(acks)
    requires open ==> wasOpen
    ensures Follows(w, w', x) && Matches(q', open, stream + data, taken, w', x)
  {
    hide Acts, Reachable, Acks, Parsed, Enabled, Step, Queue.CoversAll, Queue.AckAll, SameHistory;
    w' := w;
    StaysPut(w, x);
    assert stream + [] == stream;
    if data != [] {
      FrontFollows(w, x, stream, taken, data, q');
      w' := Step(w, Front(x, |data|));
    }
    if wasOpen && !open {
      CloseFollows(w, w', x, q', stream + data, taken);
      w' := Step(w', Close(x));
    }
  }

  /** The items received on `x`'s connection that the application has not popped. */
  function Unpopped(w: World, x: Side): seq<Item>
    requires w.ConnOf(x).Conn? && Wired(w, x)
  {
    var its := Apps(w.le, w.Received(x));
    if w.ConnOf(x).taken <= |its| then its[w.ConnOf(x).taken..] else []
  }

  lemma UnpoppedIsWaiting(c: Connection, w: World, x: Side)
    requires Represents(c, w, x) && Apps(w.le, c.Stream()) == Apps(w.le, c.consumed) + c.Waiting()
    ensures w.ConnOf(x).Conn? ==> Wired(w, x) && Unpopped(w, x) == c.Waiting()
    ensures w.ConnOf(x).NoConn? ==> c.Waiting() == []
  {
  }

  lemma NoApps(le: bool)
    ensures Apps(le, []) == []
  {
  }

  lemma FoundIsNext(c: Connection, w: World, x: Side)
    requires Represents(c, w, x) && Apps(w.le, c.Stream()) == Apps(w.le, c.consumed) + c.Waiting()
    requires c.Waiting() != [] && c.InPlace(c.Waiting()[0])
    ensures |w.Ep(x).popped| < |w.Ep(Other(x)).pushed|
    ensures Shows(c, ContentOf(w.Ep(Other(x)).pushed[|w.Ep(x).popped|]))
  {
    hide Reachable, Apps, Parsed, Shows, PtcpConn.PTCPConnection.RxValid, PtcpConn.PTCPConnection.InPlace;
    UnpoppedIsWaiting(c, w, x);
    var first := c.Waiting()[0];
    assert first == Apps(w.le, c.Stream())[|Apps(w.le, c.consumed)|];
    NextItem(w, x, first);
    ItemShows(c, first, w.Ep(Other(x)).pushed[|w.Ep(x).popped|]);
  }

  /** Every message of the peer, and a heartbeat, fits in a receive buffer of `max` bytes. */
  predicate Roomy(w: World, x: Side, max: nat) {
    && HEADER_SIZE <= max
    && forall i :: 0 <= i < |w.Ep(Other(x)).pushed| ==> 8 * MsgBlocks(w.Ep(Other(x)).pushed[i]) <= max
  }

  /** The message being received is a heartbeat or one the peer has pushed. */
  lemma NextExtent(le: bool, f: Flow, e: Endpoint, peer: Endpoint, rx: nat, max: nat)
    requires FlowOK(le, f, e, peer) && rx <= |f.bytes| && HEADER_SIZE <= max
    requires forall i :: 0 <= i < |e.pushed| ==> 8 * MsgBlocks(e.pushed[i]) <= max
    ensures var rest := f.bytes[..rx][Parsed(le, f.bytes[..rx])..];
      |rest| >= HEADER_SIZE ==> Extent(le, rest) <= max
  {
    hide Images, Image, Parsed, Count, AppMsgs, TotalBlocks, Monotone, WellTyped, Extent;
    var j := Count(f.plan, rx);
    PrefixOfImages(le, f, rx);
    ParsedOfPrefix(le, f.plan, rx);
    CountFits(f.plan, rx);
    CutImages(le, f.plan, j, rx);
    var k := rx - 8 * TotalBlocks(f.plan[..j]);
    var rest := Images(le, f.plan[j..])[..k];
    if k >= HEADER_SIZE {
      PrefixParses(le, f.plan[j..], k);
      if IsApp(f.plan[j]) {
        AppPosition(f.plan, j);
      } else {
        assert MsgBlocks(f.plan[j]) == 1 by { BareBlock(f.plan, j); }
      }
    }
  }

  lemma BareBlock(ms: seq<Msg>, j: nat)
    requires WellTyped(ms) && j < |ms| && !IsApp(ms[j])
    ensures MsgBlocks(ms[j]) == 1
  {
  }

  /** The header at the front of a prefix of images is that of the first message. */
  lemma PrefixParses(le: bool, ms: seq<Msg>, k: nat)
    requires ValidMsgs(ms) && HEADER_SIZE <= k <= |Images(le, ms)|
    ensures ms != [] && Extent(le, Images(le, ms)[..k]) == 8 * MsgBlocks(ms[0])
  {
    hide Image, StoreHeader, LoadHeader;
    ImagesTake(le, ms, k);
    ImageParses(le, ms[0], Images(le, ms)[..k]);
  }

  /** With a buffer that may grow large enough no message is ever too big. */
  lemma NeverOversized(c: Connection, w: World, x: Side)
    requires Represents(c, w, x) && Roomy(w, x, c.maxSize)
    ensures !c.Oversized()
  {
    hide Reachable, Inv, Apps, Parsed, Extent, TxOK, CrossOK, FlowOK, Linked;
    RestOfStream(c);
    if w.ConnOf(x).Conn? {
      ReachableOK(w);
      LinkedSide(w, x);
      var f := w.sessions[w.ConnOf(x).sid].Out(Other(x));
      LinkedFlow(w, x);
      NextExtent(w.le, f, w.Ep(Other(x)), w.Ep(x), w.ConnOf(x).rx, c.maxSize);
    }
  }

  lemma LinkedFlow(w: World, x: Side)
    requires Inv(w) && w.ConnOf(x).Conn?
    ensures w.ConnOf(x).sid < |w.sessions|
    ensures FlowOK(w.le, w.sessions[w.ConnOf(x).sid].Out(Other(x)), w.Ep(Other(x)), w.Ep(x))
  {
    hide Inv, FlowOK, QueueOK, CrossOK, TxOK;
    LinkedSide(w, x);
  }

  /** `Front`, on the object and in the machine.  A message is returned if and only if one is
      completely there, unless the same call meets a header that is too large; and it is the next
      one the peer pushed, standing in the buffer. */
  method RunFront(c: Connection, ghost w: World, ghost x: Side, k: PtcpConn.ReadResult)
    returns (found: bool, ghost read: bool, ghost w': World)
    requires Represents(c, w, x) && Free(w, x)
    requires PtcpConn.Plausible(k) && FromPeer(k, w, x)
    modifies c, c.recvbuf, c.q
    ensures Represents(c, w', x) && Follows(w, w', x)
    ensures found <==> w'.ConnOf(x).Conn? && Wired(w', x) && Unpopped(w', x) != [] && !(read && c.Oversized())
    ensures Roomy(w', x, c.maxSize) ==> !c.Oversized()
    ensures found ==> |w'.Ep(x).popped| < |w'.Ep(Other(x)).pushed|
    ensures found ==> Shows(c, ContentOf(w'.Ep(Other(x)).pushed[|w'.Ep(x).popped|]))
    ensures found ==> c.pre != [] && HeadIsApp(w.le, c.pre)
  {
    hide Reachable, Acts, Apps, Acks, Parsed, Honest, Queue.CoversAll, Queue.AckAll, HeadIsApp, Shows,
      Unpopped, Roomy, PtcpConn.PTCPConnection.RxValid, PtcpConn.PTCPConnection.InPlace, PtcpConn.Plausible;
    ghost var q, stream, taken, open := c.q.model, c.Stream(), |Apps(w.le, c.consumed)|, !c.IsClosed();
    RestOfStream(c);
    if k.Ready? {
      InputIsHonest(w, x, c.rest, k.avail);
    }
    ghost var data;
    found, data := c.Front(k);
    read := data != [];
    w' := AfterFront(w, x, q, stream, taken, open, data, c.q.model, !c.IsClosed());
    UnpoppedIsWaiting(c, w', x);
    if Roomy(w', x, c.maxSize) {
      NeverOversized(c, w', x);
    }
    if found {
      FoundIsNext(c, w', x);
    }
  }

  // ----- Popping

  lemma PopMatches(w: World, x: Side, q: Queue, open: bool, stream: seq<byte>, taken: nat)
    requires Reachable(w) && Matches(q, open, stream, taken, w, x) && Free(w, x) && MayPop(q)
    requires w.ConnOf(x).Conn? && taken < |Apps(w.le, stream)|
    ensures Enabled(w, Pop(x)) && Matches(q.Pop(), open, stream, taken + 1, Step(w, Pop(x)), x)
  {
    hide Reachable, AppItems, Items, ContentOfItem, MayPop, Free, Other;
    ReachableWired(w);
  }

  /** `Pop`, on the object and in the machine.  What is popped is what `Front` has shown. */
  method RunPop(c: Connection, ghost w: World, ghost x: Side) returns (ghost w': World)
    requires Represents(c, w, x) && Free(w, x) && MayPop(c.q.model)
    requires c.pre != [] && HeadIsApp(w.le, c.pre)
    modifies c`readIdx, c`consumed, c`pre, c.q`ackSeqNum, c.q`model
    ensures Enabled(w, Pop(x)) && w' == Step(w, Pop(x))
    ensures Represents(c, w', x) && Acts(w, w', x)
    ensures |w.Ep(x).popped| < |w.Ep(Other(x)).pushed|
    ensures w'.Ep(x).popped == w.Ep(x).popped + [ContentOf(w.Ep(Other(x)).pushed[|w.Ep(x).popped|])]
  {
    hide Reachable, Acts, Apps, Enabled, Step, HeadIsApp, PtcpConn.PTCPConnection.RxValid,
      PtcpConn.PTCPConnection.InPlace;
    ghost var q, stream, taken, open := c.q.model, c.Stream(), |Apps(w.le, c.consumed)|, !c.IsClosed();
    c.HeadInPlace();
    UnpoppedIsWaiting(c, w, x);
    c.Pop();
    PopMatches(w, x, q, open, stream, taken);
    ActsNot(w, x);
    Advance(w, w, Pop(x));
    PoppedNext(w, x);
    w' := Step(w, Pop(x));
  }

  lemma PoppedNext(w: World, x: Side)
    requires Reachable(w) && Enabled(w, Pop(x))
    ensures Step(w, Pop(x)).le == w.le && Step(w, Pop(x)).cap == w.cap
    ensures |w.Ep(x).popped| < |w.Ep(Other(x)).pushed|
    ensures Step(w, Pop(x)).Ep(x).popped == w.Ep(x).popped + [ContentOf(w.Ep(Other(x)).pushed[|w.Ep(x).popped|])]
  {
    hide Inv, AppItems, Items, PopStep, AppsIn, Reachable;
    ReachableOK(w);
    PopAll(w, x);
  }

  // ----- Sending

  /** The bytes `emitted` have been added to what `x` has sent on its connection. */
  ghost predicate Emitted(w: World, w': World, x: Side, emitted: seq<byte>) {
    if w.Open(x) && Wired(w, x) then
      && w.ConnOf(x).sid < |w'.sessions|
      && w'.sessions[w.ConnOf(x).sid].Out(x).bytes == w.sessions[w.ConnOf(x).sid].Out(x).bytes + emitted
    else emitted == []
  }

  lemma SendStepMatches(w: World, x: Side, q: Queue, stream: seq<byte>, taken: nat, emitted: seq<byte>, fails: bool)
    requires Wired(w, x) && Wired(w, Other(x)) && Matches(q, true, stream, taken, w, x)
    requires ValidMsgs(q.msgs) && 0 <= q.sent <= TotalBlocks(q.msgs) && emitted <= Images(w.le, q.msgs)[8 * q.sent..]
    ensures w.Open(x) && Sendable(w, x) && |emitted| <= 8 * (TotalBlocks(q.msgs) - q.sent)
    ensures var w' := SendStep(w, x, |emitted|, fails);
      && Matches(if fails then q else q.Sendout(|emitted| / 8), !fails, stream, taken, w', x)
      && SameHistory(w, w', x) && Emitted(w, w', x, emitted)
  {
    hide Images, TotalBlocks, ValidMsgs;
  }

  lemma SendMatches(w: World, x: Side, q: Queue, stream: seq<byte>, taken: nat, emitted: seq<byte>, fails: bool)
    requires Reachable(w) && Matches(q, true, stream, taken, w, x)
    requires ValidMsgs(q.msgs) && 0 <= q.sent <= TotalBlocks(q.msgs) && emitted <= Images(w.le, q.msgs)[8 * q.sent..]
    requires |emitted| % 8 == 0 || fails
    ensures Enabled(w, Send(x, |emitted|, fails))
    ensures var w' := Step(w, Send(x, |emitted|, fails));
      && Matches(if fails then q else q.Sendout(|emitted| / 8), !fails, stream, taken, w', x)
      && SameHistory(w, w', x) && Emitted(w, w', x, emitted)
  {
    hide Reachable, Images, TotalBlocks, ValidMsgs, SendStep, SameHistory, Emitted;
    ReachableWired(w);
    SendStepMatches(w, x, q, stream, taken, emitted, fails);
  }

  /** After `SendPending`: a state of the machine that the object's new values match. */
  lemma AfterSend(w: World, w1: World, x: Side, q: Queue, stream: seq<byte>, taken: nat, wasOpen: bool,
                  emitted: seq<byte>, q': Queue, open: bool) returns (w': World)
    requires Acts(w, w1, x) && Reachable(w1) && Matches(q, wasOpen, stream, taken, w1, x)
    requires ValidMsgs(q.msgs) && 0 <= q.sent <= TotalBlocks(q.msgs) && emitted <= Images(w1.le, q.msgs)[8 * q.sent..]
    requires if open then |emitted| % 8 == 0 && q' == q.Sendout(|emitted| / 8) else q' == q
    requires !wasOpen ==> !open && emitted == []
    ensures Acts(w, w', x) && Reachable(w') && SameHistory(w1, w', x) && Emitted(w1, w', x, emitted)
    ensures Matches(q', open, stream, taken, w', x)
  {
    hide Reachable, Acts, Images, Enabled, Step, TotalBlocks, SameHistory, Emitted, Matches;
    if wasOpen {
      SendMatches(w1, x, q, stream, taken, emitted, !open);
      Advance(w, w1, Send(x, |emitted|, !open));
      w' := Step(w1, Send(x, |emitted|, !open));
    } else {
      w' := w1;
      NothingSent(w1, x, q, stream, taken);
    }
  }

  lemma NothingSent(w: World, x: Side, q: Queue, stream: seq<byte>, taken: nat)
    requires Matches(q, false, stream, taken, w, x)
    ensures SameHistory(w, w, x) && Emitted(w, w, x, [])
  {
  }

  /** The queue of a valid object: its messages are legal, fit in the file, and are sent up to some
      block. */
  lemma SendState(c: Connection)
    requires c.q.Valid()
    ensures ValidMsgs(c.q.model.msgs) && 0 <= c.q.model.sent <= TotalBlocks(c.q.model.msgs) <= c.q.blkCnt
  {
    hide StoreHeader, LoadHeader, Image;
  }

  /** `SendPending`, on the object and in the machine. */
  method RunSend(c: Connection, ghost w: World, ghost x: Side, script: seq<PtcpConn.SendResult>)
    returns (pending: bool, emitted: seq<byte>, ghost w': World)
    requires Represents(c, w, x)
    modifies c, c.q
    ensures Represents(c, w', x) && Follows(w, w', x) && Emitted(w, w', x, emitted)
  {
    hide Reachable, Acts, Apps, Images, TotalBlocks, SameHistory, Emitted, Matches, PtcpConn.PTCPConnection.RxValid,
      PtcpQueue.PTCPQueue.Valid;
    ghost var q, stream, taken, open := c.q.model, c.Stream(), |Apps(w.le, c.consumed)|, !c.IsClosed();
    SendState(c);
    pending, emitted := c.SendPending(script);
    ActsNot(w, x);
    w' := AfterSend(w, w, x, q, stream, taken, open, emitted, c.q.model, !c.IsClosed());
    SameConfig(w, w', x);
  }

  lemma SameConfig(w: World, w': World, x: Side)
    requires SameHistory(w, w', x)
    ensures w'.le == w.le && w'.cap == w.cap
  {
  }

  // ----- Heartbeats

  lemma BeatMatches(w: World, x: Side, q: Queue, stream: seq<byte>, taken: nat, emitted: seq<byte>)
    requires Reachable(w) && Matches(q, true, stream, taken, w, x)
    requires ValidMsgs(q.msgs) && q.sent == TotalBlocks(q.msgs)
    requires emitted != [] && emitted <= Image(w.le, Heartbeat(q.ack))
    ensures Enabled(w, Beat(x, |emitted|))
    ensures var w' := Step(w, Beat(x, |emitted|));
      && Matches(q, |emitted| == HEADER_SIZE, stream, taken, w', x)
      && SameHistory(w, w', x) && Emitted(w, w', x, emitted)
  {
    hide Reachable, Image, TotalBlocks, StoreHeader, ValidMsgs;
    ReachableWired(w);
  }

  /** After a heartbeat, sent wholly, in part or not at all. */
  lemma AfterBeat(w: World, x: Side, q: Queue, stream: seq<byte>, taken: nat, wasOpen: bool,
                  emitted: seq<byte>, open: bool) returns (w': World)
    requires Reachable(w) && Matches(q, wasOpen, stream, taken, w, x)
    requires ValidMsgs(q.msgs) && q.sent == TotalBlocks(q.msgs) && emitted <= Image(w.le, Heartbeat(q.ack))
    requires !wasOpen ==> !open && emitted == []
    requires emitted == [] || |emitted| == HEADER_SIZE || !open
    ensures Follows(w, w', x) && Emitted(w, w', x, emitted)
    ensures Matches(q, open, stream, taken, w', x)
  {
    hide Reachable, Acts, Image, Enabled, Step, TotalBlocks, SameHistory, Emitted, Matches;
    w' := w;
    StaysPut(w, x);
    if !wasOpen {
      NothingSent(w, x, q, stream, taken);
    } else {
      NoBytes(w, x, q, stream, taken);
      if emitted != [] {
        BeatMatches(w, x, q, stream, taken, emitted);
        Advance(w, w, Beat(x, |emitted|));
        w' := Step(w, Beat(x, |emitted|));
      }
      if !open && |emitted| in {0, HEADER_SIZE} {
        CloseFollows(w, w', x, q, stream, taken);
        CloseSends(w, w', x, emitted);
        w' := Step(w', Close(x));
      }
    }
  }

  lemma NoBytes(w: World, x: Side, q: Queue, stream: seq<byte>, taken: nat)
    requires Matches(q, true, stream, taken, w, x)
    ensures Emitted(w, w, x, [])
  {
  }

  lemma CloseSends(w: World, w1: World, x: Side, emitted: seq<byte>)
    requires Emitted(w, w1, x, emitted) && Enabled(w1, Close(x))
    ensures Emitted(w, Step(w1, Close(x)), x, emitted)
  {
  }

  /** `SendHB`, on the object and in the machine. */
  method RunHeartbeat(c: Connection, ghost w: World, ghost x: Side, now: int, script: seq<PtcpConn.SendResult>,
          result: PtcpConn.SendResult)
    returns (emitted: seq<byte>, ghost w': World)
    requires Represents(c, w, x)
    modifies c, c.q
    ensures Represents(c, w', x) && Follows(w, w', x) && Emitted(w, w', x, emitted)
  {
    hide Reachable, Acts, Apps, Image, Images, TotalBlocks, SameHistory, Emitted, Matches,
      PtcpConn.PTCPConnection.RxValid, PtcpQueue.PTCPQueue.Valid;
    ghost var q, stream, taken, open := c.q.model, c.Stream(), |Apps(w.le, c.consumed)|, !c.IsClosed();
    ghost var unsent := c.q.Sendable();
    SendState(c);
    emitted := c.SendHB(now, script, result);
    ActsNot(w, x);
    if unsent == [] {
      assert |unsent| == 8 * TotalBlocks(q.msgs) - 8 * q.sent;
      w' := AfterBeat(w, x, q, stream, taken, open, emitted, !c.IsClosed());
    } else {
      w' := AfterSend(w, w, x, q, stream, taken, open, emitted, c.q.model, !c.IsClosed());
    }
    SameConfig(w, w', x);
  }

  // ----- Pushing

  lemma PushMatches(w: World, x: Side, q: Queue, open: bool, stream: seq<byte>, taken: nat, m: Msg)
    requires Reachable(w) && Matches(q, open, stream, taken, w, x) && Free(w, x)
    requires ValidMsg(m) && IsApp(m) && m.stamp == q.ack && TotalBlocks(q.msgs) + MsgBlocks(m) <= w.cap
    ensures Enabled(w, Push(x, m.msgType, m.payload, m.pad))
    ensures var w' := Step(w, Push(x, m.msgType, m.payload, m.pad));
      && Matches(q.Push(m.msgType, m.payload, m.pad), open, stream, taken, w', x)
      && PushedOne(w, w', x, m) && Emitted(w, w', x, []) && w'.ConnOf(x) == w.ConnOf(x) && Wired(w', x)
  {
    hide Reachable, TotalBlocks, ValidMsg;
    ReachableWired(w);
  }

  /** Side `x` has pushed `m` and nothing else has happened but sending. */
  ghost predicate PushedOne(w: World, w': World, x: Side, m: Msg) {
    && w'.Ep(x).pushed == w.Ep(x).pushed + [m] && w'.Ep(x).popped == w.Ep(x).popped
    && w'.Ep(Other(x)) == w.Ep(Other(x)) && w'.ConnOf(Other(x)) == w.ConnOf(Other(x))
    && w'.le == w.le && w'.cap == w.cap
  }

  lemma PushedThenSent(w: World, w1: World, w': World, x: Side, m: Msg, emitted: seq<byte>)
    requires PushedOne(w, w1, x, m) && SameHistory(w1, w', x)
    requires Wired(w, x) && Wired(w1, x) && w1.ConnOf(x) == w.ConnOf(x)
    requires Emitted(w, w1, x, []) && Emitted(w1, w', x, emitted)
    ensures PushedOne(w, w', x, m) && Emitted(w, w', x, emitted)
  {
  }

  /** `Alloc`, writing the message into the memory it returns, and `Push`: refused if and only if
      the queue's blocks are used up; otherwise the machine pushes the message and may send. */
  method RunPush(c: Connection, ghost w: World, ghost x: Side, msgType: u16, payload: seq<byte>,
          script: seq<PtcpConn.SendResult>)
    returns (ok: bool, ghost m: Msg, emitted: seq<byte>, ghost w': World)
    requires Represents(c, w, x) && Free(w, x) && msgType != 0 && HEADER_SIZE + |payload| < M16
    modifies c, c.q, c.q.blk
    ensures ok <==> TotalBlocks(w.Ep(x).q.msgs) + Blocks(HEADER_SIZE + |payload|) <= w.cap
    ensures Represents(c, w', x) && Acts(w, w', x)
    ensures !ok ==> w' == w
    ensures ok ==> ContentOf(m) == Content(msgType, payload) && m.stamp == |w.Ep(x).popped|
    ensures ok ==> PushedOne(w, w', x, m) && Emitted(w, w', x, emitted)
  {
    hide Reachable, Acts, Apps, Images, TotalBlocks, Emitted, Matches, PushedOne, Enabled, Step,
      PtcpQueue.ReservedAt, PtcpQueue.MsgAt,
      PtcpConn.PTCPConnection.RxValid;
    w', m, emitted := w, Msg(msgType, 0, payload, []), [];
    ActsNot(w, x);
    MatchedQueue(c.q.model, !c.IsClosed(), c.Stream(), |Apps(w.le, c.consumed)|, w, x);
    ok := c.q.Alloc(|payload|);
    if ok {
      c.q.Fill(msgType, payload);
      m := c.q.Pending(HEADER_SIZE + |payload|);
      ReservedFits(c, HEADER_SIZE + |payload|);
      emitted, w' := PushReserved(c, w, x, HEADER_SIZE + |payload|, script);
    }
  }

  /** The message that stands behind the queue's end is legal, and there is room for it. */
  lemma ReservedFits(c: Connection, size: int)
    requires c.q.Valid() && c.q.Reserved(size)
    ensures var m := c.q.Pending(size);
      && ValidMsg(m) && MsgBlocks(m) == Blocks(size) && m.stamp == c.q.model.ack
      && TotalBlocks(c.q.model.msgs) + MsgBlocks(m) <= c.q.blkCnt
  {
    hide StoreHeader, LoadHeader, Image;
  }

  /** `Push` of what has been written behind the queue's end. */
  method PushReserved(c: Connection, ghost w: World, ghost x: Side, ghost size: int, script: seq<PtcpConn.SendResult>)
    returns (emitted: seq<byte>, ghost w': World)
    requires Represents(c, w, x) && Free(w, x) && c.q.Reserved(size) && c.q.Pending(size).msgType != 0
    modifies c, c.q, c.q.blk
    ensures Represents(c, w', x) && Acts(w, w', x)
    ensures PushedOne(w, w', x, old(c.q.Pending(size))) && Emitted(w, w', x, emitted)
    ensures JustPushed(w, w', x, old(c.q.Pending(size)))
  {
    hide Reachable, Acts, Apps, Images, TotalBlocks, Emitted, Matches, PushedOne, JustPushed, PtcpQueue.ReservedAt,
      PtcpQueue.MsgAt,
      PtcpConn.PTCPConnection.RxValid, PtcpQueue.PTCPQueue.Valid;
    ghost var q, stream, taken, open := c.q.model, c.Stream(), |Apps(w.le, c.consumed)|, !c.IsClosed();
    ghost var m := c.q.Pending(size);
    ReservedFits(c, size);
    emitted := c.Push(size, script);
    w' := AfterPush(w, x, q, stream, taken, open, m, emitted, c.q.model, !c.IsClosed());
    PushedConfig(w, w', x, m);
  }

  /** The machine has pushed `m`, and then at most sent. */
  ghost predicate JustPushed(w: World, w': World, x: Side, m: Msg) {
    && Enabled(w, Push(x, m.msgType, m.payload, m.pad))
    && var w1 := Step(w, Push(x, m.msgType, m.payload, m.pad));
    && Acts(w1, w', x) && SameHistory(w1, w', x)
  }

  lemma MatchedQueue(q: Queue, open: bool, stream: seq<byte>, taken: nat, w: World, x: Side)
    requires Reachable(w) && Matches(q, open, stream, taken, w, x)
    ensures q == w.Ep(x).q && q.ack == |w.Ep(x).popped|
  {
    hide Reachable, QueueOK;
    ReachableOK(w);
    QueueEnd(w.cap, w.Ep(x));
  }

  lemma AfterPush(w: World, x: Side, q: Queue, stream: seq<byte>, taken: nat, wasOpen: bool, m: Msg,
                  emitted: seq<byte>, q': Queue, open: bool) returns (w': World)
    requires Reachable(w) && Matches(q, wasOpen, stream, taken, w, x) && Free(w, x)
    requires ValidMsg(m) && IsApp(m) && m.stamp == q.ack && TotalBlocks(q.msgs) + MsgBlocks(m) <= w.cap
    requires var p := q.Push(m.msgType, m.payload, m.pad);
      && ValidMsgs(p.msgs) && 0 <= p.sent && 8 * p.sent <= |Images(w.le, p.msgs)|
      && emitted <= Images(w.le, p.msgs)[8 * p.sent..]
      && (!wasOpen ==> !open && emitted == [])
      && if open then |emitted| % 8 == 0 && q' == p.Sendout(|emitted| / 8) else q' == p
    ensures Acts(w, w', x) && Reachable(w') && PushedOne(w, w', x, m) && Emitted(w, w', x, emitted)
    ensures Matches(q', open, stream, taken, w', x) && JustPushed(w, w', x, m)
  {
    hide Reachable, Acts, Images, Enabled, Step, TotalBlocks, SameHistory, Emitted, Matches, PushedOne, ValidMsg;
    PushMatches(w, x, q, wasOpen, stream, taken, m);
    ActsNot(w, x);
    Advance(w, w, Push(x, m.msgType, m.payload, m.pad));
    var w1 := Step(w, Push(x, m.msgType, m.payload, m.pad));
    PushedConfig(w, w1, x, m);
    ActsNot(w1, x);
    w' := AfterSend(w1, w1, x, q.Push(m.msgType, m.payload, m.pad), stream, taken, wasOpen, emitted, q', open);
    ActsTrans(w, w1, w', x);
    ReachableWired(w);
    PushedThenSent(w, w1, w', x, m, emitted);
  }

  lemma PushedConfig(w: World, w': World, x: Side, m: Msg)
    requires PushedOne(w, w', x, m)
    ensures w'.le == w.le && w'.cap == w.cap
  {
  }

  // ----- Closing and restarting

  /** The connection is closed from outside. */
  method RunClose(c: Connection, ghost w: World, ghost x: Side) returns (ghost w': World)
    requires Represents(c, w, x)
    modifies c
    ensures Represents(c, w', x) && Follows(w, w', x) && !w'.Open(x)
  {
    hide Reachable, Acts, Apps, SameHistory, PtcpConn.PTCPConnection.RxValid, PtcpQueue.PTCPQueue.Valid;
    ghost var q, stream, taken, open := c.q.model, c.Stream(), |Apps(w.le, c.consumed)|, !c.IsClosed();
    c.RequestClose();
    w' := w;
    StaysPut(w, x);
    if open {
      CloseFollows(w, w, x, q, stream, taken);
      w' := Step(w, Close(x));
      SameConfig(w, w', x);
    }
  }

  lemma CrashMatches(w: World, x: Side)
    requires Reachable(w)
    ensures Enabled(w, Crash(x)) && Matches(w.Ep(x).q, false, [], 0, Step(w, Crash(x)), x)
    ensures Step(w, Crash(x)).le == w.le && Step(w, Crash(x)).cap == w.cap
  {
    hide Reachable;
    ReachableWired(w);
  }

  /** The process dies and starts again on the same queue file: whatever the old object held in its
      buffer is gone, the new one takes its place. */
  method Restart(c: Connection, ghost w: World, ghost x: Side) returns (c': Connection, ghost w': World)
    requires Represents(c, w, x)
    ensures Represents(c', w', x) && c'.q == c.q && c'.IsClosed() && c'.fdToClose < 0
    ensures Enabled(w, Crash(x)) && w' == Step(w, Crash(x)) && Acts(w, w', x)
  {
    hide Reachable, Acts, Enabled, Step, Apps, PtcpConn.PTCPConnection.RxValid, PtcpQueue.PTCPQueue.Valid;
    ConfigSizes(c);
    c' := new PtcpConn.PTCPConnection(c.q, c.initSize, c.maxSize, c.heartbeatInterval, c.connectionTimeout);
    CrashMatches(w, x);
    ActsNot(w, x);
    Advance(w, w, Crash(x));
    w' := Step(w, Crash(x));
    NoApps(w.le);
  }

  lemma ConfigSizes(c: Connection)
    requires c.RxValid()
    ensures c.initSize % 8 == 0 && c.maxSize % 8 == 0 && c.initSize <= c.maxSize && 2 * c.maxSize < M32
  {
  }

  // ----- Logging in

  lemma SendLoginMatches(w: World, open: bool, stream: seq<byte>, taken: nat)
    requires Reachable(w) && Enabled(w, SendLogin) && Matches(w.client.q, open, stream, taken, w, Client)
    ensures Matches(w.client.q, open, stream, taken, Step(w, SendLogin), Client)
    ensures Step(w, SendLogin).le == w.le && Step(w, SendLogin).cap == w.cap
  {
    hide Reachable;
  }

  /** What `Connect` puts into its request: the file is found intact, and the three numbers are
      those of the machine's request. */
  method RunSendLogin(c: Connection, ghost w: World)
    returns (ok: bool, ack: u32, start: u32, end: u32, ghost w': World)
    requires Represents(c, w, Client) && Enabled(w, SendLogin)
    ensures ok && w' == Step(w, SendLogin) && Represents(c, w', Client) && Acts(w, w', Client)
    ensures w'.waiting.Some? && w'.waiting.value < |w'.logins|
    ensures var l := w'.logins[w'.waiting.value]; ack == Wrap(l.ack) && start == Wrap(l.start) && end == Wrap(l.end)
  {
    hide Reachable, Acts, Apps, Enabled, PtcpConn.PTCPConnection.RxValid, NoneTooNew;
    ack := c.q.ackSeqNum;
    NeverCorrupt(w, Client);
    ok, start, end := c.q.SanityCheckAndGetSeq();
    ActsNot(w, Client);
    Advance(w, w, SendLogin);
    SendLoginMatches(w, !c.IsClosed(), c.Stream(), |Apps(w.le, c.consumed)|);
    w' := Step(w, SendLogin);
  }

  /** `Open` in a state of the machine in which the login has just been completed. */
  method OpenIn(c: Connection, ghost w: World, ghost w1: World, ghost x: Side, ack: u32, fd: int, now: int,
          script: seq<PtcpConn.SendResult>)
    returns (emitted: seq<byte>, ghost w': World)
    requires c.Valid() && c.IsClosed() && c.fdToClose < 0 && fd >= 0 && c.q.model.CanAck(ack)
    requires Acts(w, w1, x) && Reachable(w1) && c.q.wireLittle == w1.le && c.q.blkCnt == w1.cap
    requires Matches(c.q.model.LoginAck(ack), true, [], 0, w1, x)
    modifies c, c.q
    ensures Represents(c, w', x) && Acts(w, w', x) && SameHistory(w1, w', x) && Emitted(w1, w', x, emitted)
  {
    hide Reachable, Acts, Apps, Images, TotalBlocks, SameHistory, Emitted, Matches, PtcpConn.PTCPConnection.RxValid,
      PtcpQueue.PTCPQueue.Valid;
    ghost var acked := c.q.model.LoginAck(ack);
    emitted := c.Open(fd, ack, now, script);
    NoApps(w1.le);
    w' := AfterSend(w, w1, x, acked, [], 0, true, emitted, c.q.model, !c.IsClosed());
    SameConfig(w1, w', x);
  }

  /** The object is in order but for its queue file, which may hold anything. */
  ghost predicate AnyFile(c: Connection)
    reads c, c.recvbuf, c.q
  {
    && c.RxValid() && c.recvbuf != c.q.blk && c.q.blk.Length == 8 * c.q.blkCnt < M32
    && c.hbmsg.size == Convert16(c.q.hostLittle, c.q.wireLittle, HEADER_SIZE)
    && c.hbmsg.msgType == Convert16(c.q.hostLittle, c.q.wireLittle, 0)
  }

  /** `Reset` and `Open`, whatever was in the file: the object represents a side that starts over. */
  method StartOver(c: Connection, ghost w1: World, ghost x: Side, fd: int, now: int, script: seq<PtcpConn.SendResult>)
    returns (emitted: seq<byte>, ghost w': World)
    requires AnyFile(c) && c.IsClosed() && c.fdToClose < 0 && fd >= 0
    requires Reachable(w1) && c.q.wireLittle == w1.le && c.q.blkCnt == w1.cap
    requires Matches(EMPTY_QUEUE, true, [], 0, w1, x)
    modifies c, c.q
    ensures Represents(c, w', x) && Acts(w1, w', x) && SameHistory(w1, w', x) && Emitted(w1, w', x, emitted)
  {
    hide Reachable, Acts, Matches, SameHistory, Emitted, PtcpConn.PTCPConnection.RxValid, PtcpQueue.PTCPQueue.Valid;
    c.q.Reset();
    ActsNot(w1, x);
    EmptyAck();
    emitted, w' := OpenIn(c, w1, w1, x, 0, fd, now, script);
  }

  lemma EmptyAck()
    ensures EMPTY_QUEUE.CanAck(0) && EMPTY_QUEUE.LoginAck(0) == EMPTY_QUEUE
  {
  }

  lemma HandleMatches(w: World, i: nat)
    requires Reachable(w) && Enabled(w, HandleLogin(i, true)) && Accepts(w.server.q, w.logins[i])
    ensures var q, w' := w.server.q, Step(w, HandleLogin(i, true));
      && q.CanAck(Wrap(w.logins[i].ack))
      && Matches(q.LoginAck(Wrap(w.logins[i].ack)), true, [], 0, w', Server)
      && w'.le == w.le && w'.cap == w.cap
  {
    hide Reachable, Accepts, SessionOK, SessionsOK, EndpointsOK, ConnOK, LoginsOK, TxOK, RxOK, QueueOK, FlowOK,
      CrossOK, Delivered;
    ReachableOK(w);
    AcceptedAck(w, i);
    HandledSession(w, i);
  }

  /** The tests of the server: its file is intact, and each side's acknowledgement lies in the other
      side's window. */
  method CheckLogin(c: Connection, ghost w: World, ghost i: nat, ack: u32, start: u32, end: u32)
    returns (accepted: bool)
    requires Represents(c, w, Server) && i < |w.logins|
    requires var l := w.logins[i]; ack == Wrap(l.ack) && start == Wrap(l.start) && end == Wrap(l.end)
    ensures accepted <==> Accepts(w.server.q, w.logins[i])
  {
    hide Reachable, Apps, NoneTooNew, CheckAckInQueue, Wrap, PtcpConn.PTCPConnection.RxValid;
    var localAck := c.q.ackSeqNum;
    NeverCorrupt(w, Server);
    var ok, seqStart, seqEnd := c.q.SanityCheckAndGetSeq();
    accepted := ok && CheckAckInQueue(ack, seqStart, seqEnd) && CheckAckInQueue(localAck, start, end);
  }

  lemma ReadyToHandle(c: Connection, w: World, i: nat)
    requires Represents(c, w, Server) && Enabled(w, HandleLogin(i, true))
    ensures i < |w.logins| && c.IsClosed() && c.q.model == w.server.q
  {
    hide Reachable, Apps, PtcpConn.PTCPConnection.RxValid, PtcpQueue.PTCPQueue.Valid;
  }

  /** The server's side of a login with unchanged names: the request is accepted if and only if the
      machine accepts it, and if the response gets out the connection opens and resumes. */
  method RunHandleLogin(c: Connection, ghost w: World, ghost i: nat, ack: u32, start: u32, end: u32,
                        responded: bool, fd: int, now: int, script: seq<PtcpConn.SendResult>)
    returns (accepted: bool, emitted: seq<byte>, ghost w': World)
    requires Represents(c, w, Server) && Enabled(w, HandleLogin(i, true))
    requires var l := w.logins[i]; ack == Wrap(l.ack) && start == Wrap(l.start) && end == Wrap(l.end)
    requires fd >= 0 && c.fdToClose < 0
    modifies c, c.q
    ensures accepted <==> Accepts(w.server.q, w.logins[i])
    ensures Represents(c, w', Server) && Acts(w, w', Server)
    ensures !(accepted && responded) ==> w' == w && emitted == []
    ensures accepted && responded ==>
      var w1 := Step(w, HandleLogin(i, true));
      SameHistory(w1, w', Server) && Emitted(w1, w', Server, emitted)
  {
    hide Reachable, Acts, Apps, Images, TotalBlocks, SameHistory, Emitted, Matches, Enabled, Step, Accepts,
      PtcpConn.PTCPConnection.RxValid;
    emitted, w' := [], w;
    ActsNot(w, Server);
    ReadyToHandle(c, w, i);
    accepted := CheckLogin(c, w, i, ack, start, end);
    if accepted && responded {
      HandleMatches(w, i);
      Advance(w, w, HandleLogin(i, true));
      emitted, w' := OpenIn(c, w, Step(w, HandleLogin(i, true)), Server, ack, fd, now, script);
    }
  }

  lemma FinishMatches(w: World, sid: nat)
    requires Reachable(w) && Enabled(w, FinishLogin(sid))
    ensures var a, w' := Wrap(w.sessions[sid].toServer.start), Step(w, FinishLogin(sid));
      && w.client.q.CanAck(a)
      && Matches(w.client.q.LoginAck(a), true, [], 0, w', Client)
      && w'.le == w.le && w'.cap == w.cap
  {
    hide Reachable, SessionOK, SessionsOK, EndpointsOK, ConnOK, TxOK, RxOK, QueueOK, FlowOK, CrossOK, Delivered,
      Extends;
    ReachableOK(w);
    FinishAll(w, sid);
  }

  /** The end of the client's `Connect`: the response opens the connection. */
  method RunFinishLogin(c: Connection, ghost w: World, ghost sid: nat, ack: u32, fd: int, now: int,
          script: seq<PtcpConn.SendResult>)
    returns (emitted: seq<byte>, ghost w': World)
    requires Represents(c, w, Client) && Enabled(w, FinishLogin(sid)) && c.IsClosed()
    requires ack == Wrap(w.sessions[sid].toServer.start)
    requires fd >= 0 && c.fdToClose < 0
    modifies c, c.q
    ensures Represents(c, w', Client) && Acts(w, w', Client)
    ensures var w1 := Step(w, FinishLogin(sid));
      SameHistory(w1, w', Client) && Emitted(w1, w', Client, emitted)
  {
    hide Reachable, Acts, Apps, SameHistory, Emitted, Matches, Enabled, Step, PtcpConn.PTCPConnection.RxValid,
      PtcpQueue.PTCPQueue.Valid;
    ActsNot(w, Client);
    FinishMatches(w, sid);
    Advance(w, w, FinishLogin(sid));
    MatchedQueue(c.q.model, !c.IsClosed(), c.Stream(), |Apps(w.le, c.consumed)|, w, Client);
    emitted, w' := OpenIn(c, w, Step(w, FinishLogin(sid)), Client, ack, fd, now, script);
  }

  // ----- The other side

  /** Nothing of side `y` has changed; at most more has been sent to it. */
  ghost predicate Undisturbed(w: World, w': World, y: Side) {
    && w'.le == w.le && w'.cap == w.cap
    && w'.Ep(y) == w.Ep(y) && w'.ConnOf(y) == w.ConnOf(y)
    && (w.ConnOf(y).Conn? && Wired(w, y) ==>
          && w.ConnOf(y).sid < |w'.sessions|
          && w.Received(y) <= w'.sessions[w.ConnOf(y).sid].Out(Other(y)).bytes)
  }

  lemma StepUndisturbed(w: World, a: Action, y: Side)
    requires Inv(w) && Enabled(w, a) && Actor(a) != y
    ensures Undisturbed(w, Step(w, a), y)
  {
    hide Undisturbed, PushStep, SendStep, BeatStep, HandleLoginStep, FinishLoginStep, Accepts, ConnOK, LoginsOK,
      SessionsOK, EndpointsOK;
    match a
    case Push(x, _, _, _) => SendingUndisturbed(w, a, y);
    case Send(x, _, _) => SendingUndisturbed(w, a, y);
    case Beat(x, _) => SendingUndisturbed(w, a, y);
    case HandleLogin(_, _) => LoginUndisturbed(w, a, y);
    case FinishLogin(_) => LoginUndisturbed(w, a, y);
    case _ => OthersUndisturbed(w, a, y);
  }

  /** What `x` adds to a stream of its own is all its peer may notice. */
  lemma OwnStreamUndisturbed(w: World, w': World, x: Side, y: Side)
    requires x != y && w'.le == w.le && w'.cap == w.cap && w'.Ep(y) == w.Ep(y) && w'.ConnOf(y) == w.ConnOf(y)
    requires |w.sessions| <= |w'.sessions|
    requires forall i :: 0 <= i < |w.sessions| ==> w.sessions[i].Out(x).bytes <= w'.sessions[i].Out(x).bytes
    ensures Undisturbed(w, w', y)
  {
  }

  lemma SendingUndisturbed(w: World, a: Action, y: Side)
    requires Enabled(w, a) && Actor(a) != y && (a.Push? || a.Send? || a.Beat?)
    ensures Undisturbed(w, Step(w, a), y)
  {
    hide Undisturbed, Images, Image, TotalBlocks, Sendable, Free, ValidMsg, IsApp, ValidMsgs, PushEndpoint,
      HandleLoginStep, FinishLoginStep, FrontStep, PopStep;
    OwnStreamUndisturbed(w, Step(w, a), Other(y), y);
  }

  lemma LoginUndisturbed(w: World, a: Action, y: Side)
    requires Inv(w) && Enabled(w, a) && Actor(a) != y && (a.HandleLogin? || a.FinishLogin?)
    ensures Undisturbed(w, Step(w, a), y)
  {
    hide Undisturbed, Accepts, QueueOK, SessionsOK, EndpointsOK, ConnOK;
    if a.FinishLogin? {
      assert Fresh(w, w.sessions[a.sid]);
    }
    OwnStreamUndisturbed(w, Step(w, a), Other(y), y);
  }

  lemma OthersUndisturbed(w: World, a: Action, y: Side)
    requires Enabled(w, a) && Actor(a) != y
    requires a.Front? || a.Pop? || a.Close? || a.Crash? || a.SendLogin? || a.AbandonLogin?
    ensures Undisturbed(w, Step(w, a), y)
  {
    hide Acks, Parsed, Queue.CoversAll, Queue.AckAll, Items, AppItems, ContentOfItem;
  }

  lemma UndisturbedMatches(w: World, w': World, y: Side, q: Queue, open: bool, stream: seq<byte>, taken: nat)
    requires Matches(q, open, stream, taken, w, y) && Undisturbed(w, w', y)
    ensures Matches(q, open, stream, taken, w', y)
  {
  }

  lemma {:induction false} RunMatches(w: World, run: seq<Action>, y: Side, q: Queue, open: bool, stream: seq<byte>,
          taken: nat)
    requires Inv(w) && IsRun(w, run) && forall i :: 0 <= i < |run| ==> Actor(run[i]) != y
    requires Matches(q, open, stream, taken, w, y)
    ensures Matches(q, open, stream, taken, After(w, run), y)
    ensures After(w, run).le == w.le && After(w, run).cap == w.cap
    decreases |run|
  {
    hide Inv, Enabled, Step, Matches;
    if run != [] {
      StepUndisturbed(w, run[0], y);
      StepKeepsInv(w, run[0]);
      UndisturbedMatches(w, Step(w, run[0]), y, q, open, stream, taken);
      RunMatches(Step(w, run[0]), run[1..], y, q, open, stream, taken);
    }
  }

  /** Whatever one side does, the other side's object goes on representing the other side: two
      objects together run the machine. */
  lemma OtherStays(c: Connection, w: World, w': World, x: Side)
    requires Represents(c, w, Other(x)) && Acts(w, w', x) && Reachable(w')
    ensures Represents(c, w', Other(x))
  {
    hide Inv, IsRun, After, Reachable, Matches, Apps, PtcpConn.PTCPConnection.RxValid, PtcpQueue.PTCPQueue.Valid;
    ReachableOK(w);
    var run :| IsRun(w, run) && After(w, run) == w' && forall i :: 0 <= i < |run| ==> Actor(run[i]) == x;
    RunMatches(w, run, Other(x), c.q.model, !c.IsClosed(), c.Stream(), |Apps(w.le, c.consumed)|);
  }
}
