/** One direction of one connection, and what the two endpoints know of it.

    A flow is the byte stream one side has sent since a login, together with its `plan`: the
    messages of that connection in order, heartbeats included, whether or not all of their bytes
    have been sent.  `start` is the number of the first message the receiver still wants.
 */
module Flows {
  import opened Words
  import opened MsgHeader
  import opened Wire
  import opened SendQueue

  /** `hb` is the number of messages in the plan up to and including the last heartbeat. */
  datatype Flow = Flow(start: nat, plan: seq<Msg>, bytes: seq<byte>, hb: nat)

  /** An endpoint's state that survives a crash, with the history of what it pushed and popped. */
  datatype Endpoint = Endpoint(q: Queue, pushed: seq<Msg>, popped: seq<Content>)

  function Contents(ms: seq<Msg>): (r: seq<Content>)
    ensures |r| == |ms| && forall i :: 0 <= i < |ms| ==> r[i] == ContentOf(ms[i])
  {
    seq(|ms|, i requires 0 <= i < |ms| => ContentOf(ms[i]))
  }

  /** The number of application messages that are complete in the first `n` bytes. */
  function AppsIn(plan: seq<Msg>, n: int): nat {
    |AppMsgs(plan[..Count(plan, n)])|
  }

  // ----- Invariants

  ghost predicate Monotone(ms: seq<Msg>) {
    forall i, j :: 0 <= i < j < |ms| ==> ms[i].stamp <= ms[j].stamp
  }

  /** Pushed messages are legal, and their stamps never go back. */
  ghost predicate PushedOK(ms: seq<Msg>) {
    ValidMsgs(ms) && Monotone(ms) && forall i :: 0 <= i < |ms| ==> IsApp(ms[i])
  }

  /** The oldest stamp in the queue is recent. */
  ghost predicate RecentStamps(q: Queue) {
    q.msgs != [] ==> q.ack - q.msgs[0].stamp < HALF32
  }

  /** The queue holds exactly the pushed messages the peer has not acknowledged; every stamp was
      the pop count at some earlier time. */
  ghost predicate QueueOK(cap: nat, e: Endpoint) {
    && 8 * cap < M32
    && PushedOK(e.pushed)
    && e.q.base <= |e.pushed| && e.q.msgs == e.pushed[e.q.base..]
    && e.q.ack == |e.popped|
    && 0 <= e.q.sent <= TotalBlocks(e.q.msgs) <= cap
    && (e.pushed != [] ==> e.pushed[|e.pushed| - 1].stamp <= e.q.ack)
    && RecentStamps(e.q)
  }

  /** What the peer popped is what was pushed, in order, and nothing it still needs is gone. */
  ghost predicate Delivered(e: Endpoint, peer: Endpoint) {
    && e.q.base <= |peer.popped| <= |e.pushed|
    && peer.popped == Contents(e.pushed[..|peer.popped|])
  }

  ghost predicate FlowOK(le: bool, f: Flow, e: Endpoint, peer: Endpoint) {
    && ValidMsgs(f.plan) && WellTyped(f.plan)
    && f.start + |AppMsgs(f.plan)| <= |e.pushed|
    && AppMsgs(f.plan) == e.pushed[f.start..f.start + |AppMsgs(f.plan)|]
    && f.bytes <= Images(le, f.plan)
    && Monotone(f.plan)
    && (f.plan != [] ==> f.plan[|f.plan| - 1].stamp <= |e.popped|)
    && f.start <= |peer.popped|
  }

  /** The acknowledgements in a flow are for messages that were completely sent in the opposite
      one, and heartbeats never acknowledge less than the login did. */
  ghost predicate CrossOK(f: Flow, rev: Flow) {
    forall i :: 0 <= i < |f.plan| ==>
      && f.plan[i].stamp <= rev.start + AppsIn(rev.plan, |rev.bytes|)
      && (f.plan[i].msgType == 0 ==> rev.start <= f.plan[i].stamp)
  }

  /** The largest acknowledgement the headers visible in `rx` bytes carry, or the login's. */
  function Floor(fin: Flow, rx: nat, login: nat): nat {
    var v := Visible(fin.plan, rx);
    if v == 0 || fin.plan[v - 1].stamp <= login then login else fin.plan[v - 1].stamp
  }

  /** The receive side of an endpoint: `rx` bytes received, `taken` messages popped. */
  ghost predicate RxOK(e: Endpoint, fin: Flow, fout: Flow, rx: nat, taken: nat) {
    && rx <= |fin.bytes|
    && |e.popped| == fin.start + taken
    && taken <= AppsIn(fin.plan, rx)
    && fout.start <= e.q.base <= Floor(fin, rx, fout.start)
  }

  /** The send side while the connection is open: the unsent rest of the plan is the unsent rest
      of the queue, and all heartbeats have been sent. */
  ghost predicate TxOK(le: bool, e: Endpoint, fout: Flow)
    requires ValidMsgs(fout.plan) && ValidMsgs(e.q.msgs)
  {
    && fout.start + |AppMsgs(fout.plan)| == |e.pushed|
    && |fout.bytes| <= |Images(le, fout.plan)|
    && 0 <= e.q.sent <= TotalBlocks(e.q.msgs)
    && Images(le, fout.plan)[|fout.bytes|..] == Images(le, e.q.msgs)[8 * e.q.sent..]
    && fout.hb <= |fout.plan|
    && (forall i :: fout.hb <= i < |fout.plan| ==> IsApp(fout.plan[i]))
    && 8 * TotalBlocks(fout.plan[..fout.hb]) <= |fout.bytes|
  }

  // ----- Counting in a plan

  lemma {:induction false} CountFits(ms: seq<Msg>, n: nat)
    ensures 8 * TotalBlocks(ms[..Count(ms, n)]) <= n
  {
    if ms != [] && n >= 8 * MsgBlocks(ms[0]) {
      CountFits(ms[1..], n - 8 * MsgBlocks(ms[0]));
      assert ms[..Count(ms, n)][1..] == ms[1..][..Count(ms, n) - 1];
    }
  }

  /** Later additions to a plan do not change what is complete or visible in a prefix. */
  lemma {:induction false} CountExtend(ms: seq<Msg>, ext: seq<Msg>, n: nat)
    requires n <= 8 * TotalBlocks(ms)
    ensures Count(ms + ext, n) == Count(ms, n) && Visible(ms + ext, n) == Visible(ms, n)
    ensures (ms + ext)[..Count(ms, n)] == ms[..Count(ms, n)]
  {
    if ms == [] {
      assert ms + ext == ext;
    } else {
      assert (ms + ext)[1..] == ms[1..] + ext && (ms + ext)[0] == ms[0];
      if n >= 8 * MsgBlocks(ms[0]) {
        CountExtend(ms[1..], ext, n - 8 * MsgBlocks(ms[0]));
      }
    }
  }

  lemma {:induction false} CountMonotone(ms: seq<Msg>, n: nat, n': nat)
    requires n <= n'
    ensures Count(ms, n) <= Count(ms, n') && Visible(ms, n) <= Visible(ms, n')
  {
    if ms != [] && n >= 8 * MsgBlocks(ms[0]) {
      CountMonotone(ms[1..], n - 8 * MsgBlocks(ms[0]), n' - 8 * MsgBlocks(ms[0]));
    }
  }

  lemma AppMsgsPrefix(ms: seq<Msg>, i: nat, j: nat)
    requires i <= j <= |ms|
    ensures |AppMsgs(ms[..i])| <= |AppMsgs(ms[..j])|
    ensures AppMsgs(ms[..j]) == AppMsgs(ms[..i]) + AppMsgs(ms[i..j])
  {
    assert ms[..j] == ms[..i] + ms[i..j];
    AppMsgsAppend(ms[..i], ms[i..j]);
  }

  lemma AppsInMonotone(ms: seq<Msg>, n: nat, n': nat)
    requires n <= n'
    ensures AppsIn(ms, n) <= AppsIn(ms, n')
  {
    CountMonotone(ms, n, n');
    AppMsgsPrefix(ms, Count(ms, n), Count(ms, n'));
  }

  lemma AppsInAtMost(ms: seq<Msg>, n: int)
    ensures AppsIn(ms, n) <= |AppMsgs(ms)|
  {
    assert ms[..|ms|] == ms;
    AppMsgsPrefix(ms, Count(ms, n), |ms|);
  }

  lemma {:induction false} AllApps(ms: seq<Msg>)
    requires forall i :: 0 <= i < |ms| ==> IsApp(ms[i])
    ensures AppMsgs(ms) == ms
  {
    if ms != [] {
      AllApps(ms[1..]);
    }
  }

  lemma {:induction false} AppMsgsValid(ms: seq<Msg>)
    requires ValidMsgs(ms)
    ensures ValidMsgs(AppMsgs(ms))
  {
    if ms != [] {
      AppMsgsValid(ms[1..]);
    }
  }

  /** Parsing and dropping heartbeats commute. */
  lemma {:induction false} AppItemsOfMsgs(ms: seq<Msg>)
    requires ValidMsgs(ms)
    ensures ValidMsgs(AppMsgs(ms)) && AppItems(ItemsOf(ms)) == ItemsOf(AppMsgs(ms))
  {
    AppMsgsValid(ms);
    if ms != [] {
      AppItemsOfMsgs(ms[1..]);
      assert ItemsOf(ms)[1..] == ItemsOf(ms[1..]);
      if IsApp(ms[0]) {
        assert ItemsOf(AppMsgs(ms)) == [ItemOf(ms[0])] + ItemsOf(AppMsgs(ms[1..]));
      }
    }
  }

  // ----- What the receiver finds in the bytes

  lemma PrefixOfImages(le: bool, f: Flow, n: nat)
    requires ValidMsgs(f.plan) && f.bytes <= Images(le, f.plan) && n <= |f.bytes|
    ensures n <= |Images(le, f.plan)| && f.bytes[..n] == Images(le, f.plan)[..n]
  {
  }

  /** The application messages parsed from the first `n` bytes are those of the plan that are
      complete there. */
  lemma ReceivedItems(le: bool, f: Flow, n: nat)
    requires ValidMsgs(f.plan) && f.bytes <= Images(le, f.plan) && n <= |f.bytes|
    ensures var ms := f.plan[..Count(f.plan, n)];
      && ValidMsgs(AppMsgs(ms))
      && AppItems(Items(le, f.bytes[..n])) == ItemsOf(AppMsgs(ms))
  {
    hide Items, Images, Image;
    PrefixOfImages(le, f, n);
    ItemsOfPrefix(le, f.plan, n);
    AppItemsOfMsgs(f.plan[..Count(f.plan, n)]);
  }

  /** The content of a message as read from the stream. */
  function ContentOfItem(it: Item): Content
    requires HEADER_SIZE <= it.header.size <= HEADER_SIZE + |it.body|
  {
    Content(it.header.msgType, it.body[..it.header.size - HEADER_SIZE])
  }

  lemma ContentSurvives(m: Msg)
    requires ValidMsg(m)
    ensures var it := ItemOf(m);
      HEADER_SIZE <= it.header.size <= HEADER_SIZE + |it.body| && ContentOfItem(it) == ContentOf(m)
  {
  }

  /** The next message to pop is the next one pushed. */
  lemma NextContent(le: bool, f: Flow, e: Endpoint, peer: Endpoint, rx: nat, taken: nat)
    requires FlowOK(le, f, e, peer) && ValidMsgs(e.pushed)
    requires rx <= |f.bytes| && taken < AppsIn(f.plan, rx)
    ensures var its := AppItems(Items(le, f.bytes[..rx]));
      && taken < |its|
      && f.start + taken < |e.pushed|
      && HEADER_SIZE <= its[taken].header.size <= HEADER_SIZE + |its[taken].body|
      && ContentOfItem(its[taken]) == ContentOf(e.pushed[f.start + taken])
  {
    hide Items, Images;
    ReceivedItems(le, f, rx);
    var k := Count(f.plan, rx);
    AppMsgsPrefix(f.plan, k, |f.plan|);
    assert f.plan[..|f.plan|] == f.plan;
    var m := AppMsgs(f.plan)[taken];
    assert m == AppMsgs(f.plan[..k])[taken];
    assert m == e.pushed[f.start + taken];
    ContentSurvives(m);
  }

  lemma {:induction false} VisibleShift(ms: seq<Msg>, k: nat, n: nat)
    requires k <= Count(ms, n)
    ensures 8 * TotalBlocks(ms[..k]) <= n
    ensures Visible(ms, n) == k + Visible(ms[k..], n - 8 * TotalBlocks(ms[..k]))
  {
    if k == 0 {
      assert ms[0..] == ms;
    } else {
      VisibleShift(ms[1..], k - 1, n - 8 * MsgBlocks(ms[0]));
      assert ms[1..][..k - 1] == ms[..k][1..];
      assert ms[1..][k - 1..] == ms[k..];
    }
  }

  lemma CutImages(le: bool, ms: seq<Msg>, j: nat, n: nat)
    requires ValidMsgs(ms) && j <= |ms| && 8 * TotalBlocks(ms[..j]) <= n <= |Images(le, ms)|
    ensures ValidMsgs(ms[j..]) && n - 8 * TotalBlocks(ms[..j]) <= |Images(le, ms[j..])|
    ensures Images(le, ms)[..n][8 * TotalBlocks(ms[..j])..] == Images(le, ms[j..])[..n - 8 * TotalBlocks(ms[..j])]
  {
    hide Images;
    var cut := 8 * TotalBlocks(ms[..j]);
    ImagesDrop(le, ms, j);
    assert Images(le, ms)[..n][cut..] == Images(le, ms)[cut..][..n - cut];
  }

  /** The bytes one read leaves to parse, from the first message that was incomplete before: they
      are the images of the plan from that message on, as far as they have come. */
  lemma UnparsedBytes(le: bool, f: Flow, rx: nat, n: nat)
    requires ValidMsgs(f.plan) && f.bytes <= Images(le, f.plan) && rx + n <= |f.bytes|
    ensures var j := Count(f.plan, rx);
      var k := rx + n - 8 * TotalBlocks(f.plan[..j]);
      && ValidMsgs(f.plan[j..]) && 0 <= k <= |Images(le, f.plan[j..])|
      && Parsed(le, f.bytes[..rx]) <= rx
      && f.bytes[..rx + n][Parsed(le, f.bytes[..rx])..] == Images(le, f.plan[j..])[..k]
  {
    hide Images, Parsed, Count, TotalBlocks;
    PrefixOfImages(le, f, rx);
    PrefixOfImages(le, f, rx + n);
    ParsedOfPrefix(le, f.plan, rx);
    CountFits(f.plan, rx);
    CutImages(le, f.plan, Count(f.plan, rx), rx + n);
  }

  /** The acknowledgements one read brings: those of the headers visible after it, from the first
      message that was incomplete before. */
  lemma NewAcks(le: bool, f: Flow, rx: nat, n: nat)
    requires ValidMsgs(f.plan) && f.bytes <= Images(le, f.plan) && rx + n <= |f.bytes|
    ensures var j, v := Count(f.plan, rx), Visible(f.plan, rx + n);
      && j <= v <= |f.plan|
      && Parsed(le, f.bytes[..rx]) <= rx
      && Acks(le, f.bytes[..rx + n][Parsed(le, f.bytes[..rx])..]) == WrapAll(Stamps(f.plan[j..v]))
  {
    hide Images, Acks, Parsed, Visible, Count, TotalBlocks, WrapAll, Stamps;
    var j, v := Count(f.plan, rx), Visible(f.plan, rx + n);
    CountMonotone(f.plan, rx, rx + n);
    VisibleShift(f.plan, j, rx + n);
    UnparsedBytes(le, f, rx, n);
    AcksOfPrefixOfImages(le, f.plan[j..], rx + n - 8 * TotalBlocks(f.plan[..j]));
    assert f.plan[j..][..v - j] == f.plan[j..v];
  }

  // ----- Acknowledgements that arrive are honest

  /** Behind the complete messages and the last heartbeat, a plan whose applications reach to the
      end of what was pushed is the pushed messages themselves. */
  lemma PlanTail(plan: seq<Msg>, pushed: seq<Msg>, start: nat, k: nat)
    requires k <= |plan| && start + |AppMsgs(plan)| == |pushed| && AppMsgs(plan) == pushed[start..]
    requires forall i :: k <= i < |plan| ==> IsApp(plan[i])
    ensures start + |AppMsgs(plan[..k])| <= |pushed|
    ensures plan[k..] == pushed[start + |AppMsgs(plan[..k])|..]
  {
    AppMsgsPrefix(plan, k, |plan|);
    assert plan[..|plan|] == plan && plan[k..|plan|] == plan[k..];
    AllApps(plan[k..]);
    hide AppMsgs;
    var a := |AppMsgs(plan[..k])|;
    assert pushed[start..][a..] == pushed[start + a..];
  }

  lemma QueueMsgsValid(cap: nat, e: Endpoint)
    requires QueueOK(cap, e)
    ensures ValidMsgs(e.q.msgs) && (forall i :: 0 <= i < |e.q.msgs| ==> IsApp(e.q.msgs[i]))
    ensures e.q.End() == |e.pushed| && |e.q.msgs| < HALF32
  {
  }

  lemma BlocksOfTail(ms: seq<Msg>, n: nat, m: nat)
    requires n <= m <= |ms|
    ensures TotalBlocks(ms[n..]) >= TotalBlocks(ms[m..])
    ensures TotalBlocks(ms) == TotalBlocks(ms[..m]) + TotalBlocks(ms[m..])
  {
    hide TotalBlocks;
    assert ms[n..] == ms[n..m] + ms[m..];
    TotalBlocksAppend(ms[n..m], ms[m..]);
    assert ms == ms[..m] + ms[m..];
    TotalBlocksAppend(ms[..m], ms[m..]);
  }

  /** What is unsent on an open connection belongs to pushed messages behind those completely sent. */
  lemma UnsentTail(le: bool, e: Endpoint, peer: Endpoint, fout: Flow) returns (m: nat)
    requires FlowOK(le, fout, e, peer) && ValidMsgs(e.q.msgs) && TxOK(le, e, fout)
    ensures fout.start + AppsIn(fout.plan, |fout.bytes|) <= m <= |e.pushed|
    ensures |Images(le, fout.plan)| - |fout.bytes| <= 8 * TotalBlocks(e.pushed[m..])
  {
    hide Images, Monotone, WellTyped, Image, TotalBlocks, Count, AppMsgs, ValidMsgs, IsApp;
    var plan := fout.plan;
    var c := Count(plan, |fout.bytes|);
    var k := if c < fout.hb then fout.hb else c;
    CountFits(plan, |fout.bytes|);
    AppMsgsPrefix(plan, c, k);
    PlanTail(plan, e.pushed, fout.start, k);
    m := fout.start + |AppMsgs(plan[..k])|;
    BlocksOfTail(plan, k, k);
  }

  /** Messages completely sent on an open connection are covered by the queue's send position. */
  lemma SentCovers(le: bool, cap: nat, e: Endpoint, peer: Endpoint, fout: Flow, n: nat)
    requires QueueOK(cap, e) && FlowOK(le, fout, e, peer) && TxOK(le, e, fout)
    requires e.q.base <= n <= fout.start + AppsIn(fout.plan, |fout.bytes|)
    ensures n <= e.q.End() && TotalBlocks(e.q.msgs[..n - e.q.base]) <= e.q.sent
  {
    hide Images, Monotone, WellTyped, Image, TotalBlocks, Count, AppMsgs, ValidMsgs, PushedOK, RecentStamps, FlowOK;
    QueueMsgsValid(cap, e);
    FlowPlanValid(le, fout, e, peer);
    var m := UnsentTail(le, e, peer, fout);
    BlocksOfTail(e.pushed, n, m);
    BlocksOfTail(e.q.msgs, n - e.q.base, n - e.q.base);
    assert e.q.msgs[n - e.q.base..] == e.pushed[n..];
    assert |Images(le, fout.plan)| - |fout.bytes| == |Images(le, e.q.msgs)| - 8 * e.q.sent;
  }

  /** No header still to be processed carries an acknowledgement older than the comparison can
      tell: a message's stamp is recent because the message is still in the peer's queue, and a
      heartbeat's is not older than anything acknowledged before it. */
  lemma AckIsRecent(le: bool, cap: nat, e: Endpoint, peer: Endpoint, fin: Flow, fout: Flow, rx: nat, taken: nat, i: nat)
    requires QueueOK(cap, peer) && Delivered(peer, e) && Delivered(e, peer)
    requires FlowOK(le, fin, peer, e) && CrossOK(fin, fout) && RxOK(e, fin, fout, rx, taken)
    requires Count(fin.plan, rx) <= i < |fin.plan|
    requires |peer.popped| == peer.q.ack
    ensures e.q.base - HALF32 <= fin.plan[i].stamp
  {
    hide Images, TotalBlocks, Contents, ValidMsgs, WellTyped, Count, Visible, AppMsgs, MsgBlocks;
    var m := fin.plan[i];
    var v := Visible(fin.plan, rx);
    assert v > 0 ==> fin.plan[v - 1].stamp <= m.stamp by {
      if v > 0 && v - 1 < i {
        assert Monotone(fin.plan);
      }
    }
    if m.msgType != 0 && m.stamp < e.q.base {
      AppPosition(fin.plan, i);
      AppMsgsPrefix(fin.plan, Count(fin.plan, rx), i);
      var g := fin.start + |AppMsgs(fin.plan[..i])|;
      assert m == peer.pushed[g];
      assert g >= |e.popped| >= peer.q.base;
      assert m == peer.q.msgs[g - peer.q.base];
      assert peer.q.msgs[0] == peer.pushed[peer.q.base];
      assert peer.q.msgs[0].stamp <= m.stamp by {
        if peer.q.base < g {
          assert Monotone(peer.pushed);
        }
      }
    }
  }

  /** Where an application message of the plan stands among the application messages. */
  lemma AppPosition(ms: seq<Msg>, i: nat)
    requires i < |ms| && IsApp(ms[i])
    ensures |AppMsgs(ms[..i])| < |AppMsgs(ms)| && AppMsgs(ms)[|AppMsgs(ms[..i])|] == ms[i]
  {
    assert ms == ms[..i] + ms[i..];
    AppMsgsAppend(ms[..i], ms[i..]);
  }

  /** All that one endpoint knows in a session: its own queue, the peer's, the two flows, and how
      far it has received. */
  ghost predicate Linked(le: bool, cap: nat, e: Endpoint, peer: Endpoint, fin: Flow, fout: Flow, rx: nat, taken: nat) {
    && QueueOK(cap, e) && QueueOK(cap, peer)
    && Delivered(e, peer) && Delivered(peer, e)
    && FlowOK(le, fin, peer, e) && FlowOK(le, fout, e, peer)
    && CrossOK(fin, fout)
    && RxOK(e, fin, fout, rx, taken)
  }

  /** The acknowledgement that the headers visible after a read amount to. */
  function LastAck(fin: Flow, rx: nat, n: nat, base: nat): nat {
    var j, v := Count(fin.plan, rx), Visible(fin.plan, rx + n);
    if j < v && base < fin.plan[v - 1].stamp then fin.plan[v - 1].stamp else base
  }

  /** The last of them acknowledges only what has been sent. */
  lemma LastAckSent(le: bool, cap: nat, e: Endpoint, peer: Endpoint, fin: Flow, fout: Flow, rx: nat, taken: nat, i: nat)
    requires Linked(le, cap, e, peer, fin, fout, rx, taken)
    requires TxOK(le, e, fout)
    requires i < |fin.plan|
    ensures fin.plan[i].stamp <= e.q.End() && SentBefore(e.q, fin.plan[i].stamp)
    ensures fin.plan[i].stamp <= |peer.popped|
  {
    hide Images, ValidMsgs, WellTyped, TotalBlocks, AppMsgs, Contents;
    var a := fin.plan[i].stamp;
    QueueMsgsValid(cap, e);
    assert a <= fin.plan[|fin.plan| - 1].stamp by {
      if i < |fin.plan| - 1 {
        assert Monotone(fin.plan);
      }
    }
    AppsInAtMost(fout.plan, |fout.bytes|);
    if e.q.base < a {
      SentCovers(le, cap, e, peer, fout, a);
    }
  }

  /** A stamp not yet processed is neither too old nor for anything not completely sent. */
  ghost predicate StampOK(q: Queue, m: Msg) {
    q.base - HALF32 <= m.stamp <= q.End() && SentBefore(q, m.stamp)
  }

  lemma NewStamp(le: bool, cap: nat, e: Endpoint, peer: Endpoint, fin: Flow, fout: Flow, rx: nat, taken: nat, i: nat)
    requires Linked(le, cap, e, peer, fin, fout, rx, taken) && TxOK(le, e, fout)
    requires Count(fin.plan, rx) <= i < |fin.plan|
    ensures StampOK(e.q, fin.plan[i])
  {
    hide Images, WellTyped, TotalBlocks, AppMsgs, Contents, Count, Visible;
    AckIsRecent(le, cap, e, peer, fin, fout, rx, taken, i);
    LastAckSent(le, cap, e, peer, fin, fout, rx, taken, i);
  }

  lemma NewStamps(le: bool, cap: nat, e: Endpoint, peer: Endpoint, fin: Flow, fout: Flow, rx: nat, taken: nat, v: nat)
    requires Linked(le, cap, e, peer, fin, fout, rx, taken) && TxOK(le, e, fout)
    requires Count(fin.plan, rx) <= v <= |fin.plan|
    ensures var ms := fin.plan[Count(fin.plan, rx)..v];
      Monotone(ms) && forall i :: 0 <= i < |ms| ==> StampOK(e.q, ms[i])
  {
    hide Linked, TxOK, Count, StampOK;
    assert Monotone(fin.plan) by { LinkedMonotone(le, cap, e, peer, fin, fout, rx, taken); }
    var j := Count(fin.plan, rx);
    forall i | j <= i < v
      ensures StampOK(e.q, fin.plan[i])
    {
      NewStamp(le, cap, e, peer, fin, fout, rx, taken, i);
    }
  }

  lemma LinkedMonotone(le: bool, cap: nat, e: Endpoint, peer: Endpoint, fin: Flow, fout: Flow, rx: nat, taken: nat)
    requires Linked(le, cap, e, peer, fin, fout, rx, taken)
    ensures Monotone(fin.plan) && QueueOK(cap, e) && e.q.sent >= 0
  {
  }

  /** A run of acceptable stamps acts on the queue as the last of them does. */
  lemma AckRun(q: Queue, ms: seq<Msg>)
    requires |q.msgs| < HALF32 && q.sent >= 0
    requires Monotone(ms) && forall i :: 0 <= i < |ms| ==> StampOK(q, ms[i])
    ensures q.CoversAll(WrapAll(Stamps(ms)))
    ensures ms != [] ==> ms[|ms| - 1].stamp <= q.End()
    ensures q.AckAll(WrapAll(Stamps(ms))) == if ms == [] then q else q.DropTo(ms[|ms| - 1].stamp)
  {
    hide Queue.CoversAll, Queue.AckAll, WrapAll, Wrap, SentBefore, Queue.DropTo;
    var stamps := Stamps(ms);
    forall i | 0 <= i < |stamps|
      ensures q.base - HALF32 <= stamps[i] <= q.End() && SentBefore(q, stamps[i])
    {
      assert StampOK(q, ms[i]);
    }
    AckAllIsExact(q, stamps);
  }

  /** The acknowledgements that a read of `n` bytes makes visible are honest, and act on the queue
      as the unbounded number `a`. */
  ghost predicate AcksAre(le: bool, q: Queue, fin: Flow, rx: nat, n: nat, a: nat)
    requires rx + n <= |fin.bytes|
  {
    var acks := Acks(le, fin.bytes[..rx + n][Parsed(le, fin.bytes[..rx])..]);
    q.CoversAll(acks) && a <= q.End() && q.AckAll(acks) == q.DropTo(a)
  }

  /** Processing the headers that one read makes visible: every acknowledgement is honest, and
      together they act as the last one, compared as unbounded numbers. */
  lemma FrontAcks(le: bool, cap: nat, e: Endpoint, peer: Endpoint, fin: Flow, fout: Flow, rx: nat, taken: nat, n: nat)
    requires Linked(le, cap, e, peer, fin, fout, rx, taken) && TxOK(le, e, fout)
    requires rx + n <= |fin.bytes|
    ensures AcksAre(le, e.q, fin, rx, n, LastAck(fin, rx, n, e.q.base))
  {
    hide Images, Acks, Parsed, Count, Visible, Queue.CoversAll, Queue.AckAll, TxOK, Linked, WrapAll, Stamps, StampOK;
    var j, v := Count(fin.plan, rx), Visible(fin.plan, rx + n);
    LinkedMonotone(le, cap, e, peer, fin, fout, rx, taken);
    assert ValidMsgs(fin.plan) && fin.bytes <= Images(le, fin.plan) by {
      LinkedBytes(le, cap, e, peer, fin, fout, rx, taken);
    }
    NewAcks(le, fin, rx, n);
    NewStamps(le, cap, e, peer, fin, fout, rx, taken, v);
    QueueMsgsValid(cap, e);
    AckRun(e.q, fin.plan[j..v]);
  }

  lemma LinkedBytes(le: bool, cap: nat, e: Endpoint, peer: Endpoint, fin: Flow, fout: Flow, rx: nat, taken: nat)
    requires Linked(le, cap, e, peer, fin, fout, rx, taken)
    ensures ValidMsgs(fin.plan) && fin.bytes <= Images(le, fin.plan)
  {
  }

  /** Acknowledging sent messages keeps the queue's invariant and the tie of the unsent bytes. */
  lemma AfterAck(le: bool, cap: nat, e: Endpoint, peer: Endpoint, fout: Flow, a: nat)
    requires QueueOK(cap, e) && Delivered(e, peer) && Delivered(peer, e) && FlowOK(le, fout, e, peer)
    requires TxOK(le, e, fout)
    requires a <= |peer.popped| && SentBefore(e.q, a)
    ensures var e' := e.(q := e.q.DropTo(a));
      && QueueOK(cap, e') && Delivered(e', peer) && Delivered(peer, e')
      && TxOK(le, e', fout)
  {
    hide QueueOK, Delivered, FlowOK, TxOK, ValidMsgs, TotalBlocks;
    QueueMsgsValid(cap, e);
    FlowPlanValid(le, fout, e, peer);
    SentBound(cap, e);
    if e.q.base < a {
      var d := a - e.q.base;
      UnsentAfterDrop(le, e.q, d);
      DropQueue(cap, e, d);
      DropDelivered(e, peer, d);
      DropTx(le, e, fout, d);
    }
  }

  lemma SentBound(cap: nat, e: Endpoint)
    requires QueueOK(cap, e)
    ensures e.q.sent <= TotalBlocks(e.q.msgs)
  {
  }

  lemma DropQueue(cap: nat, e: Endpoint, d: nat)
    requires QueueOK(cap, e) && 0 < d <= |e.q.msgs|
    requires 0 <= e.q.Drop(d).sent <= TotalBlocks(e.q.Drop(d).msgs) <= TotalBlocks(e.q.msgs)
    ensures QueueOK(cap, e.(q := e.q.Drop(d)))
  {
    hide PushedOK, TotalBlocks;
    var a := e.q.base + d;
    assert e.q.msgs[d..] == e.pushed[a..];
    MonotonePushed(e.pushed, e.q.base, a);
  }

  lemma DropDelivered(e: Endpoint, peer: Endpoint, d: nat)
    requires Delivered(e, peer) && Delivered(peer, e) && d <= |e.q.msgs| && e.q.base + d <= |peer.popped|
    ensures Delivered(e.(q := e.q.Drop(d)), peer) && Delivered(peer, e.(q := e.q.Drop(d)))
  {
    hide Contents, TotalBlocks;
  }

  lemma DropTx(le: bool, e: Endpoint, fout: Flow, d: nat)
    requires ValidMsgs(fout.plan) && ValidMsgs(e.q.msgs) && TxOK(le, e, fout)
    requires 0 < d <= |e.q.msgs| && ValidMsgs(e.q.Drop(d).msgs)
    requires 0 <= e.q.Drop(d).sent <= TotalBlocks(e.q.Drop(d).msgs)
    requires Images(le, e.q.msgs)[8 * e.q.sent..] == Images(le, e.q.Drop(d).msgs)[8 * e.q.Drop(d).sent..]
    ensures TxOK(le, e.(q := e.q.Drop(d)), fout)
  {
    hide Images, AppMsgs, TotalBlocks, ValidMsgs;
  }

  lemma FlowPlanValid(le: bool, f: Flow, e: Endpoint, peer: Endpoint)
    requires FlowOK(le, f, e, peer)
    ensures ValidMsgs(f.plan)
  {
  }

  lemma MonotonePushed(ms: seq<Msg>, b: nat, a: nat)
    requires PushedOK(ms) && b <= a <= |ms|
    ensures a < |ms| ==> ms[b..][0] == ms[b] && ms[a..][0] == ms[a] && ms[b].stamp <= ms[a].stamp
  {
  }

  lemma UnsentAfterDrop(le: bool, q: Queue, d: nat)
    requires ValidMsgs(q.msgs) && 0 < d <= |q.msgs|
    requires TotalBlocks(q.msgs[..d]) <= q.sent <= TotalBlocks(q.msgs)
    ensures ValidMsgs(q.Drop(d).msgs)
    ensures 0 <= q.Drop(d).sent <= TotalBlocks(q.Drop(d).msgs) <= TotalBlocks(q.msgs)
    ensures Images(le, q.msgs)[8 * q.sent..] == Images(le, q.Drop(d).msgs)[8 * q.Drop(d).sent..]
  {
    hide Images;
    ImagesDrop(le, q.msgs, d);
    var t := TotalBlocks(q.msgs[..d]);
    if d == |q.msgs| {
      assert q.msgs[..d] == q.msgs;
      assert Images(le, q.msgs)[8 * q.sent..] == [];
      assert |Images(le, q.msgs[d..])| == 0;
    } else {
      assert Images(le, q.msgs)[8 * q.sent..] == Images(le, q.msgs)[8 * t..][8 * (q.sent - t)..];
    }
  }

  /** The receive side after a read. */
  lemma AfterRead(e: Endpoint, fin: Flow, fout: Flow, rx: nat, taken: nat, n: nat)
    requires RxOK(e, fin, fout, rx, taken) && rx + n <= |fin.bytes| && Monotone(fin.plan)
    requires LastAck(fin, rx, n, e.q.base) <= e.q.End()
    ensures RxOK(e.(q := e.q.DropTo(LastAck(fin, rx, n, e.q.base))), fin, fout, rx + n, taken)
  {
    hide Count, Visible, TotalBlocks, AppMsgs;
    AppsInMonotone(fin.plan, rx, rx + n);
    CountMonotone(fin.plan, rx, rx + n);
    var v, v' := Visible(fin.plan, rx), Visible(fin.plan, rx + n);
    if 0 < v < v' {
      assert fin.plan[v - 1].stamp <= fin.plan[v' - 1].stamp;
    }
  }

  /** The state of the reader after its queue has dropped everything before message `a`. */
  ghost predicate ReadState(le: bool, cap: nat, e: Endpoint, peer: Endpoint, fin: Flow, fout: Flow, rx: nat,
          taken: nat) {
    && QueueOK(cap, e) && Delivered(e, peer) && Delivered(peer, e)
    && ValidMsgs(fout.plan) && ValidMsgs(e.q.msgs) && TxOK(le, e, fout)
    && RxOK(e, fin, fout, rx, taken)
  }

  lemma LastAckBounds(le: bool, cap: nat, e: Endpoint, peer: Endpoint, fin: Flow, fout: Flow, rx: nat, taken: nat,
          n: nat)
    requires Linked(le, cap, e, peer, fin, fout, rx, taken) && TxOK(le, e, fout)
    ensures var a := LastAck(fin, rx, n, e.q.base); a <= |peer.popped| && SentBefore(e.q, a) && a <= e.q.End()
  {
    hide QueueOK, CrossOK, TxOK, RxOK, FlowOK, TotalBlocks, Count, Visible, Contents;
    var v := Visible(fin.plan, rx + n);
    if v > 0 {
      LastAckSent(le, cap, e, peer, fin, fout, rx, taken, v - 1);
    }
    QueueMsgsValid(cap, e);
  }

  lemma ReadLinked(le: bool, cap: nat, e: Endpoint, peer: Endpoint, fin: Flow, fout: Flow, rx: nat, taken: nat, n: nat)
    requires Linked(le, cap, e, peer, fin, fout, rx, taken) && TxOK(le, e, fout)
    requires rx + n <= |fin.bytes|
    ensures var a := LastAck(fin, rx, n, e.q.base);
      a <= e.q.End() && ReadState(le, cap, e.(q := e.q.DropTo(a)), peer, fin, fout, rx + n, taken)
  {
    hide QueueOK, Delivered, CrossOK, TxOK, RxOK, Images, TotalBlocks, Queue.DropTo, Count, Visible, LastAck,
      AppMsgs, WellTyped;
    var a := LastAck(fin, rx, n, e.q.base);
    LastAckBounds(le, cap, e, peer, fin, fout, rx, taken, n);
    AfterAck(le, cap, e, peer, fout, a);
    AfterRead(e, fin, fout, rx, taken, n);
    QueueMsgsValid(cap, e.(q := e.q.DropTo(a)));
  }

  // ----- Flows grow

  /** A later state of a flow: more planned, more sent. */
  ghost predicate Extends(le: bool, f: Flow, f': Flow) {
    && f.start == f'.start && f.plan <= f'.plan && f.bytes <= f'.bytes
    && ValidMsgs(f.plan) && |f.bytes| <= |Images(le, f.plan)|
  }

  lemma ExtendedCounts(le: bool, f: Flow, f': Flow, rx: nat)
    requires Extends(le, f, f') && rx <= |f.bytes|
    ensures AppsIn(f'.plan, rx) == AppsIn(f.plan, rx)
    ensures forall login: nat :: Floor(f', rx, login) == Floor(f, rx, login)
    ensures AppsIn(f.plan, |f.bytes|) <= AppsIn(f'.plan, |f'.bytes|)
  {
    hide Images, Count, Visible, TotalBlocks, AppMsgs;
    var ext := f'.plan[|f.plan|..];
    assert f'.plan == f.plan + ext;
    CountExtend(f.plan, ext, rx);
    CountExtend(f.plan, ext, |f.bytes|);
    AppsInMonotone(f'.plan, |f.bytes|, |f'.bytes|);
  }

  /** The other side of a session is not disturbed when a flow grows. */
  lemma PeerUndisturbed(le: bool, f: Flow, f': Flow, fin: Flow)
    requires Extends(le, f, f')
    ensures CrossOK(fin, f) ==> CrossOK(fin, f')
    ensures forall e, rx: nat, taken: nat :: RxOK(e, f, fin, rx, taken) ==> RxOK(e, f', fin, rx, taken)
  {
    hide AppsIn, Floor;
    ExtendedCounts(le, f, f', 0);
    forall e, rx: nat, taken: nat | RxOK(e, f, fin, rx, taken)
      ensures RxOK(e, f', fin, rx, taken)
    {
      ExtendedCounts(le, f, f', rx);
    }
  }

  /** More pushed and popped messages do not disturb a flow. */
  lemma FlowGrows(le: bool, f: Flow, e: Endpoint, peer: Endpoint, e': Endpoint, peer': Endpoint)
    requires FlowOK(le, f, e, peer)
    requires e.pushed <= e'.pushed && |e.popped| <= |e'.popped| && |peer.popped| <= |peer'.popped|
    ensures FlowOK(le, f, e', peer')
  {
    hide Images, AppMsgs, ValidMsgs, WellTyped;
  }

  // ----- The sender's steps

  function PushEndpoint(e: Endpoint, msgType: u16, payload: seq<byte>, pad: seq<byte>): Endpoint {
    e.(q := e.q.Push(msgType, payload, pad), pushed := e.pushed + [Msg(msgType, e.q.ack, payload, pad)])
  }

  lemma PushQueue(cap: nat, e: Endpoint, peer: Endpoint, m: Msg)
    requires QueueOK(cap, e) && Delivered(e, peer) && Delivered(peer, e)
    requires ValidMsg(m) && IsApp(m) && m.stamp == e.q.ack && TotalBlocks(e.q.msgs) + MsgBlocks(m) <= cap
    ensures var e' := PushEndpoint(e, m.msgType, m.payload, m.pad);
      QueueOK(cap, e') && Delivered(e', peer) && Delivered(peer, e')
  {
    hide TotalBlocks, PushedOK, Contents, ValidMsg;
    TotalBlocksAppend(e.q.msgs, [m]);
    OneBlock(m);
    var pushed := e.pushed + [m];
    PushedSnoc(e.pushed, m);
    assert pushed[e.q.base..] == e.q.msgs + [m];
    assert pushed[..|peer.popped|] == e.pushed[..|peer.popped|];
    assert e.q.Push(m.msgType, m.payload, m.pad).msgs == e.q.msgs + [m];
  }

  lemma PushedSnoc(ms: seq<Msg>, m: Msg)
    requires PushedOK(ms) && ValidMsg(m) && IsApp(m)
    requires ms != [] ==> ms[|ms| - 1].stamp <= m.stamp
    ensures PushedOK(ms + [m])
  {
  }

  lemma OneBlock(m: Msg)
    ensures TotalBlocks([m]) == MsgBlocks(m)
  {
  }

  lemma ImagesOne(le: bool, m: Msg)
    requires ValidMsg(m)
    ensures ValidMsgs([m]) && Images(le, [m]) == Image(le, m)
  {
  }

  /** A message pushed on an open connection joins the plan. */
  lemma PushFlowOK(le: bool, e: Endpoint, peer: Endpoint, fout: Flow, m: Msg)
    requires FlowOK(le, fout, e, peer) && fout.start + |AppMsgs(fout.plan)| == |e.pushed|
    requires ValidMsg(m) && IsApp(m) && m.stamp == |e.popped|
    ensures FlowOK(le, fout.(plan := fout.plan + [m]), e.(pushed := e.pushed + [m]), peer)
    ensures fout.start + |AppMsgs(fout.plan + [m])| == |e.pushed + [m]|
    ensures Extends(le, fout, fout.(plan := fout.plan + [m]))
  {
    hide Images, Image, AppMsgs, TotalBlocks;
    ImagesAppend(le, fout.plan, [m]);
    AppMsgsAppend(fout.plan, [m]);
    assert AppMsgs([m]) == [m] by { AllApps([m]); }
    assert (e.pushed + [m])[fout.start..] == e.pushed[fout.start..] + [m];
  }

  lemma PushTxOK(le: bool, e: Endpoint, fout: Flow, m: Msg)
    requires ValidMsgs(fout.plan) && ValidMsgs(e.q.msgs) && TxOK(le, e, fout)
    requires ValidMsg(m) && IsApp(m) && m.stamp == e.q.ack
    requires fout.start + |AppMsgs(fout.plan + [m])| == |e.pushed + [m]|
    ensures var e' := PushEndpoint(e, m.msgType, m.payload, m.pad);
      ValidMsgs(e'.q.msgs) && TxOK(le, e', fout.(plan := fout.plan + [m]))
  {
    hide Images, Image, AppMsgs, TotalBlocks;
    ImagesAppend(le, fout.plan, [m]);
    ImagesAppend(le, e.q.msgs, [m]);
    ImagesOne(le, m);
    TotalBlocksAppend(e.q.msgs, [m]);
    assert (fout.plan + [m])[..fout.hb] == fout.plan[..fout.hb];
    SuffixAppend(Images(le, fout.plan), |fout.bytes|, Image(le, m));
    SuffixAppend(Images(le, e.q.msgs), 8 * e.q.sent, Image(le, m));
    assert e.q.Push(m.msgType, m.payload, m.pad).msgs == e.q.msgs + [m];
  }

  lemma SuffixAppend(a: seq<byte>, k: nat, b: seq<byte>)
    requires k <= |a|
    ensures (a + b)[k..] == a[k..] + b
  {
  }

  lemma PushCross(fin: Flow, fout: Flow, e: Endpoint, rx: nat, taken: nat, m: Msg)
    requires CrossOK(fout, fin) && RxOK(e, fin, fout, rx, taken)
    requires m.stamp == |e.popped|
    ensures CrossOK(fout.(plan := fout.plan + [m]), fin)
  {
    hide AppsIn, Floor;
    AppsInMonotone(fin.plan, rx, |fin.bytes|);
  }

  // ----- Sending bytes

  /** The next `n` unsent bytes of the queue, appended to what was sent. */
  function SendFlow(le: bool, e: Endpoint, fout: Flow, n: nat): Flow
    requires ValidMsgs(e.q.msgs) && 0 <= 8 * e.q.sent <= |Images(le, e.q.msgs)|
    requires n <= |Images(le, e.q.msgs)| - 8 * e.q.sent
  {
    fout.(bytes := fout.bytes + Images(le, e.q.msgs)[8 * e.q.sent..][..n])
  }

  lemma AppendPrefix(a: seq<byte>, b: seq<byte>, n: nat)
    requires a <= b && n <= |b| - |a|
    ensures a + b[|a|..][..n] <= b && b[|a + b[|a|..][..n]|..] == b[|a|..][n..]
  {
  }

  /** What an open connection sends is the continuation of its plan: message images in order,
      heartbeats only between them. */
  lemma SendKeepsPlan(le: bool, e: Endpoint, peer: Endpoint, fout: Flow, n: nat)
    requires FlowOK(le, fout, e, peer) && ValidMsgs(e.q.msgs) && TxOK(le, e, fout)
    requires n <= |Images(le, e.q.msgs)| - 8 * e.q.sent
    ensures var fout' := SendFlow(le, e, fout, n);
      && FlowOK(le, fout', e, peer) && Extends(le, fout, fout')
      && (n % 8 == 0 ==> TxOK(le, e.(q := e.q.Sendout(n / 8)), fout'))
  {
    hide Images, AppMsgs, TotalBlocks;
    AppendPrefix(fout.bytes, Images(le, fout.plan), n);
    if n % 8 == 0 {
      assert Images(le, e.q.msgs)[8 * e.q.sent..][n..] == Images(le, e.q.msgs)[8 * (e.q.sent + n / 8)..];
    }
  }

  /** The first `n` bytes of a heartbeat, sent when nothing else is pending. */
  function BeatFlow(le: bool, e: Endpoint, fout: Flow, n: nat): Flow
    requires n <= 8
  {
    var hb := Heartbeat(e.q.ack);
    Flow(fout.start, fout.plan + [hb], fout.bytes + Image(le, hb)[..n], if n == 8 then |fout.plan| + 1 else fout.hb)
  }

  lemma BeatFlowOK(le: bool, e: Endpoint, peer: Endpoint, fout: Flow, n: nat)
    requires FlowOK(le, fout, e, peer) && |fout.bytes| == |Images(le, fout.plan)| && n <= 8
    requires e.q.ack == |e.popped|
    ensures FlowOK(le, BeatFlow(le, e, fout, n), e, peer) && Extends(le, fout, BeatFlow(le, e, fout, n))
    ensures AppMsgs(fout.plan + [Heartbeat(e.q.ack)]) == AppMsgs(fout.plan)
  {
    hide Images, Image, TotalBlocks, ValidMsg, ValidMsgs, AppMsgs, Monotone;
    var hb := Heartbeat(e.q.ack);
    AppMsgsAppend(fout.plan, [hb]);
    NoApp(hb);
    BeatBytes(le, fout, hb, n);
    MonotoneSnoc(fout.plan, hb);
  }

  lemma MonotoneSnoc(ms: seq<Msg>, m: Msg)
    requires Monotone(ms) && (ms != [] ==> ms[|ms| - 1].stamp <= m.stamp)
    ensures Monotone(ms + [m])
  {
  }

  lemma NoApp(m: Msg)
    requires !IsApp(m)
    ensures AppMsgs([m]) == []
  {
  }

  /** A part of one more image, sent when all others are. */
  lemma BeatBytes(le: bool, fout: Flow, m: Msg, n: nat)
    requires ValidMsgs(fout.plan) && ValidMsg(m) && fout.bytes == Images(le, fout.plan) && n <= |Image(le, m)|
    ensures ValidMsgs(fout.plan + [m])
    ensures fout.bytes <= fout.bytes + Image(le, m)[..n] <= Images(le, fout.plan + [m])
  {
    hide Images, Image, TotalBlocks, ValidMsg;
    ImagesAppend(le, fout.plan, [m]);
    ImagesOne(le, m);
    AppendPrefix(fout.bytes, fout.bytes + Image(le, m), n);
    assert (fout.bytes + Image(le, m))[|fout.bytes|..] == Image(le, m);
  }

  /** The heartbeat stands at a message boundary, and the tie of the unsent bytes is kept. */
  lemma BeatTxOK(le: bool, e: Endpoint, fout: Flow)
    requires ValidMsgs(fout.plan) && ValidMsgs(e.q.msgs) && TxOK(le, e, fout) && e.q.sent == TotalBlocks(e.q.msgs)
    requires AppMsgs(fout.plan + [Heartbeat(e.q.ack)]) == AppMsgs(fout.plan)
    ensures |fout.bytes| == |Images(le, fout.plan)|
    ensures TxOK(le, e, BeatFlow(le, e, fout, 8))
  {
    hide Images, Image, TotalBlocks, AppMsgs;
    var hb := Heartbeat(e.q.ack);
    assert |Images(le, e.q.msgs)[8 * e.q.sent..]| == 0;
    ImagesAppend(le, fout.plan, [hb]);
    TotalBlocksAppend(fout.plan, [hb]);
    OneBlock(hb);
    assert MsgBlocks(hb) == 1;
    assert (fout.plan + [hb])[..|fout.plan| + 1] == fout.plan + [hb];
    assert Images(le, fout.plan + [hb])[|fout.bytes| + 8..] == [];
  }

  lemma BeatCross(le: bool, fin: Flow, fout: Flow, e: Endpoint, rx: nat, taken: nat, n: nat)
    requires CrossOK(fout, fin) && RxOK(e, fin, fout, rx, taken) && n <= 8
    requires e.q.ack == |e.popped|
    ensures CrossOK(BeatFlow(le, e, fout, n), fin)
  {
    hide AppsIn, Floor, Image;
    AppsInMonotone(fin.plan, rx, |fin.bytes|);
  }

  // ----- Popping and logging in

  function PopEndpoint(e: Endpoint, c: Content): Endpoint {
    e.(q := e.q.Pop(), popped := e.popped + [c])
  }

  /** The one hypothesis on counters: a message leaves the send queue before 2^31 further pops. */
  predicate MayPop(q: Queue) {
    q.msgs == [] || q.ack + 1 - q.msgs[0].stamp < HALF32
  }

  lemma PopQueue(cap: nat, e: Endpoint, c: Content)
    requires QueueOK(cap, e) && MayPop(e.q)
    ensures QueueOK(cap, PopEndpoint(e, c))
  {
    hide TotalBlocks, PushedOK;
  }

  lemma PopDelivered(e: Endpoint, peer: Endpoint, c: Content)
    requires Delivered(e, peer) && Delivered(peer, e)
    requires |e.popped| < |peer.pushed| && c == ContentOf(peer.pushed[|e.popped|])
    ensures Delivered(PopEndpoint(e, c), peer) && Delivered(peer, PopEndpoint(e, c))
  {
  }

  /** The state of an endpoint that logs in with a peer that has popped `a` messages: everything
      from message `a` on is to be sent again. */
  function LoginEndpoint(e: Endpoint, a: nat): Endpoint
    requires a <= e.q.End()
  {
    e.(q := e.q.DropTo(a).(sent := 0))
  }

  lemma LoginAckExact(cap: nat, e: Endpoint, a: nat)
    requires QueueOK(cap, e) && e.q.base <= a <= |e.pushed|
    ensures a <= e.q.End() && e.q.CanAck(Wrap(a)) && e.q.LoginAck(Wrap(a)) == LoginEndpoint(e, a).q
  {
    hide PushedOK, TotalBlocks, Wrap;
    QueueMsgsValid(cap, e);
    AckIsExact(e.q, a);
  }

  lemma LoginQueue(cap: nat, e: Endpoint, peer: Endpoint, a: nat)
    requires QueueOK(cap, e) && Delivered(e, peer) && Delivered(peer, e)
    requires e.q.base <= a <= |e.pushed| && a <= |peer.popped| && a <= e.q.End()
    ensures var e' := LoginEndpoint(e, a);
      && QueueOK(cap, e') && Delivered(e', peer) && Delivered(peer, e')
      && e'.q.base == a && e'.q.msgs == e.pushed[a..]
  {
    hide PushedOK, Contents, TotalBlocks;
    var d := a - e.q.base;
    assert e.q.msgs[d..] == e.pushed[a..];
    BlocksOfTail(e.q.msgs, 0, d);
    assert e.q.msgs[0..] == e.q.msgs;
    MonotonePushed(e.pushed, e.q.base, a);
  }

  lemma LoginFlowOK(le: bool, cap: nat, e: Endpoint, peer: Endpoint, a: nat)
    requires QueueOK(cap, e) && a == e.q.base && a <= |peer.popped| && e.q.sent == 0
    ensures var f := Flow(a, e.q.msgs, [], 0);
      && FlowOK(le, f, e, peer) && TxOK(le, e, f)
      && forall i :: 0 <= i < |f.plan| ==> f.plan[i].msgType != 0 && f.plan[i].stamp <= |e.popped|
  {
    hide Images, TotalBlocks, AppMsgs;
    QueueMsgsValid(cap, e);
    AllApps(e.q.msgs);
    assert e.pushed[a..a + |e.q.msgs|] == e.q.msgs;
    StampsBounded(e.pushed, a, |e.popped|);
    assert e.q.msgs[..0] == [];
    assert TotalBlocks([]) == 0 by { EmptyBlocks(); }
  }

  lemma StampsBounded(ms: seq<Msg>, a: nat, bound: nat)
    requires Monotone(ms) && a <= |ms| && (ms != [] ==> ms[|ms| - 1].stamp <= bound)
    ensures Monotone(ms[a..]) && forall i :: 0 <= i < |ms[a..]| ==> ms[a..][i].stamp <= bound
  {
  }

  lemma EmptyBlocks()
    ensures TotalBlocks([]) == 0
  {
  }
}
