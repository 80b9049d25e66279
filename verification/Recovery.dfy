/** What holds in every run of the two endpoints, whatever is lost, cut short or retried. */
module Recovery {
  import opened Words
  import opened Wire
  import opened SendQueue
  import opened Flows
  import opened Protocol
  import opened ProtocolSteps

  lemma StartOK(le: bool, cap: nat)
    requires 8 * cap < M32
    ensures Inv(Start(le, cap))
  {
  }

  lemma {:induction false} RunKeepsInv(w: World, run: seq<Action>)
    requires Inv(w) && IsRun(w, run)
    ensures Inv(After(w, run))
    decreases |run|
  {
    hide Inv, Enabled, Step;
    if run != [] {
      StepKeepsInv(w, run[0]);
      RunKeepsInv(Step(w, run[0]), run[1..]);
    }
  }

  /** The states of all runs from empty queues. */
  ghost predicate Reachable(w: World) {
    exists le, cap: nat, run :: 8 * cap < M32 && IsRun(Start(le, cap), run) && w == After(Start(le, cap), run)
  }

  lemma StartReachable(le: bool, cap: nat)
    requires 8 * cap < M32
    ensures Reachable(Start(le, cap))
  {
    assert IsRun(Start(le, cap), []) && After(Start(le, cap), []) == Start(le, cap);
  }

  lemma ReachableOK(w: World)
    requires Reachable(w)
    ensures Inv(w)
  {
    hide Inv, IsRun, After;
    var le, cap: nat, run :| 8 * cap < M32 && IsRun(Start(le, cap), run) && w == After(Start(le, cap), run);
    StartOK(le, cap);
    RunKeepsInv(Start(le, cap), run);
  }

  /** What `peer` has popped is what `e` has pushed, up to some message, in order and each once, and
      everything after that message is still in the queue of `e`. */
  ghost predicate Intact(e: Endpoint, peer: Endpoint) {
    && |peer.popped| <= |e.pushed|
    && (forall i :: 0 <= i < |peer.popped| ==> peer.popped[i] == ContentOf(e.pushed[i]))
    && (forall i :: |peer.popped| <= i < |e.pushed| ==>
          e.q.base <= i < e.q.End() && e.q.msgs[i - e.q.base] == e.pushed[i])
  }

  /** Exactly once, in order, nothing lost: in both directions, in every run. */
  lemma ExactlyOnceInOrder(w: World)
    requires Reachable(w)
    ensures Intact(w.client, w.server) && Intact(w.server, w.client)
  {
    hide Reachable, SessionsOK, ConnOK, LoginsOK, QueueOK, Delivered, Intact;
    ReachableOK(w);
    DeliveredExactly(w.cap, w.client, w.server);
    DeliveredExactly(w.cap, w.server, w.client);
  }

  lemma DeliveredExactly(cap: nat, e: Endpoint, peer: Endpoint)
    requires QueueOK(cap, e) && Delivered(e, peer)
    ensures Intact(e, peer)
  {
    hide PushedOK, TotalBlocks, RecentStamps;
  }

  /** Recovery is never refused: whenever the client has asked to log in and the server side is not
      connected, the login is accepted, although all numbers are compared as 32-bit values. */
  lemma LoginIsAccepted(w: World)
    requires Reachable(w) && w.waiting.Some? && !w.Open(Server)
    ensures w.waiting.value < |w.logins|
    ensures Enabled(w, HandleLogin(w.waiting.value, true)) && Accepts(w.server.q, w.logins[w.waiting.value])
  {
    ReachableOK(w);
    WaitingLoginAccepted(w);
    ConnsWired(w);
  }

  lemma ConnsWired(w: World)
    requires Inv(w)
    ensures Wired(w, Client) && Wired(w, Server)
  {
    hide EndpointsOK, SessionsOK, LoginsOK, TxOK, Floor, AppsIn;
  }

  lemma WaitingLoginAccepted(w: World)
    requires Inv(w) && w.waiting.Some?
    ensures w.waiting.value < |w.logins|
    ensures var l := w.logins[w.waiting.value];
      Accepts(w.server.q, l) && w.server.q.End() - l.ack < HALF32
  {
    hide SessionsOK, ConnOK, PushedOK, TotalBlocks, Contents;
    var l := w.logins[w.waiting.value];
    QueueMsgsValid(w.cap, w.client);
    QueueMsgsValid(w.cap, w.server);
    CheckAckExact(l.ack, w.server.q.base, w.server.q.End());
    CheckAckExact(w.server.q.ack, l.start, l.end);
  }

  /** The queue file is never found corrupt: no stamp is newer than the acknowledgement, and every one
      is recent enough for the comparison to be right about it. */
  lemma NeverCorrupt(w: World, x: Side)
    requires Reachable(w)
    ensures NoneTooNew(w.Ep(x).q.ack, w.Ep(x).q.msgs)
    ensures forall i :: 0 <= i < |w.Ep(x).q.msgs| ==> 0 <= w.Ep(x).q.ack - w.Ep(x).q.msgs[i].stamp < HALF32
  {
    ReachableOK(w);
    QueueNotCorrupt(w.cap, w.Ep(x));
  }

  lemma QueueNotCorrupt(cap: nat, e: Endpoint)
    requires QueueOK(cap, e)
    ensures NoneTooNew(e.q.ack, e.q.msgs)
    ensures forall i :: 0 <= i < |e.q.msgs| ==> 0 <= e.q.ack - e.q.msgs[i].stamp < HALF32
  {
    hide TotalBlocks, ValidMsgs;
    StampsBounded(e.pushed, e.q.base, e.q.ack);
    forall i | 0 <= i < |e.q.msgs|
      ensures !TooNew(e.q.ack, e.q.msgs[i]) && 0 <= e.q.ack - e.q.msgs[i].stamp < HALF32
    {
      if i > 0 {
        assert e.q.msgs[0].stamp <= e.q.msgs[i].stamp;
      }
      DiffExact(e.q.ack, e.q.msgs[i].stamp);
    }
  }

  /** Framing: in every session, what a side has sent is a prefix of message images, one after the
      other; the application messages among them are consecutive pushed ones, and a heartbeat can
      only stand where a message ends. */
  lemma Framing(w: World, x: Side, sid: nat)
    requires Reachable(w) && sid < |w.sessions|
    ensures var f, e := w.sessions[sid].Out(x), w.Ep(x);
      && ValidMsgs(f.plan) && f.bytes <= Images(w.le, f.plan)
      && f.start + |AppMsgs(f.plan)| <= |e.pushed|
      && AppMsgs(f.plan) == e.pushed[f.start..f.start + |AppMsgs(f.plan)|]
      && forall i :: 0 <= i < |f.plan| && !IsApp(f.plan[i]) ==> f.plan[i] == Heartbeat(f.plan[i].stamp)
  {
    hide Reachable, Inv, Images, AppMsgs;
    ReachableOK(w);
    SessionFramed(w, x, sid);
    var f := w.sessions[sid].Out(x);
    forall i | 0 <= i < |f.plan| && !IsApp(f.plan[i])
      ensures f.plan[i] == Heartbeat(f.plan[i].stamp)
    {
      BareHeader(f.plan[i]);
    }
  }

  lemma SessionFramed(w: World, x: Side, sid: nat)
    requires Inv(w) && sid < |w.sessions|
    ensures var f, e := w.sessions[sid].Out(x), w.Ep(x);
      && ValidMsgs(f.plan) && WellTyped(f.plan) && f.bytes <= Images(w.le, f.plan)
      && f.start + |AppMsgs(f.plan)| <= |e.pushed|
      && AppMsgs(f.plan) == e.pushed[f.start..f.start + |AppMsgs(f.plan)|]
  {
    hide EndpointsOK, ConnOK, LoginsOK, Images, AppMsgs, CrossOK, Monotone, ValidMsgs, WellTyped;
    assert SessionOK(w.le, w.sessions[sid], w.client, w.server);
  }

  lemma BareHeader(m: Msg)
    requires ValidMsg(m) && m.msgType == 0 && m.payload == []
    ensures m == Heartbeat(m.stamp)
  {
  }

  /** A peer that runs this protocol is honest: at every moment, whatever it has sent and however
      much of it is read at once, headers are legal and every acknowledgement is for messages
      completely sent before.  This is what the connection's `Front` takes for granted. */
  lemma PeerIsHonest(w: World, x: Side, n: nat)
    requires Reachable(w) && w.Open(x)
    requires w.ConnOf(x).sid < |w.sessions|
    requires w.ConnOf(x).rx + n <= |w.sessions[w.ConnOf(x).sid].Out(Other(x)).bytes|
    ensures var c := w.ConnOf(x);
      var bytes := w.sessions[c.sid].Out(Other(x)).bytes;
      var unread := bytes[..c.rx + n][Parsed(w.le, bytes[..c.rx])..];
      Honest(w.le, unread) && w.Ep(x).q.CoversAll(Acks(w.le, unread))
  {
    hide Reachable, Inv, Queue.CoversAll, Queue.AckAll, Queue.DropTo, Acks, Parsed, Honest, TxOK, LastAck, Images,
      TotalBlocks;
    ReachableOK(w);
    LinkedSide(w, x);
    var c := w.ConnOf(x);
    var fin, fout := w.sessions[c.sid].Out(Other(x)), w.sessions[c.sid].Out(x);
    FrontAcks(w.le, w.cap, w.Ep(x), w.Ep(Other(x)), fin, fout, c.rx, c.taken, n);
    FreshHonest(w.le, fin, c.rx, n);
  }

  lemma FreshHonest(le: bool, f: Flow, rx: nat, n: nat)
    requires ValidMsgs(f.plan) && WellTyped(f.plan) && f.bytes <= Images(le, f.plan) && rx + n <= |f.bytes|
    ensures Honest(le, f.bytes[..rx + n][Parsed(le, f.bytes[..rx])..])
  {
    hide Images, Honest, Parsed, Count, TotalBlocks;
    var j := Count(f.plan, rx);
    UnparsedBytes(le, f, rx, n);
    var tail := Images(le, f.plan[j..]);
    var k := rx + n - 8 * TotalBlocks(f.plan[..j]);
    ImagesAreHonest(le, f.plan[j..]);
    assert tail[..k] + tail[k..] == tail;
    HonestPrefix(le, tail[..k], tail[k..]);
  }

  /** The flow `f` of `e` starts over at message `n`: nothing sent yet, and all of the queue, from
      that message on, to be sent. */
  ghost predicate StartsAt(f: Flow, e: Endpoint, n: nat) {
    && f.start == n <= |e.pushed| && f.bytes == []
    && f.plan == e.pushed[n..]
    && e.q.sent == 0 && e.q.msgs == f.plan
  }

  /** A session resumes exactly where the receiver stopped: the first message planned in it is the
      one the receiver expects next, and its first byte is the first to be sent. */
  lemma ResumesAtExpected(w: World, i: nat)
    requires Reachable(w) && Enabled(w, HandleLogin(i, true)) && w.waiting == Some(i)
    ensures var w' := Step(w, HandleLogin(i, true));
      && |w'.sessions| == |w.sessions| + 1
      && w'.serverConn == Conn(|w.sessions|, true, 0, 0)
      && StartsAt(w'.sessions[|w.sessions|].toClient, w'.server, |w.client.popped|)
  {
    hide SessionsOK, ConnOK, QueueOK, Delivered, Accepts, SessionOK, TxOK, RxOK, Reachable;
    ReachableOK(w);
    WaitingLoginAccepted(w);
    AcceptedAck(w, i);
    HandledSession(w, i);
    QueueEnd(w.cap, w.server);
    LoginQueue(w.cap, w.server, w.client, w.logins[i].ack);
  }

  lemma ClientResumesAtExpected(w: World, sid: nat)
    requires Reachable(w) && Enabled(w, FinishLogin(sid))
    ensures var w' := Step(w, FinishLogin(sid));
      && w'.clientConn == Conn(sid, true, 0, 0) && |w'.sessions| == |w.sessions|
      && w.sessions[sid].toServer.start <= |w.server.popped|
      && StartsAt(w'.sessions[sid].toServer, w'.client, w.sessions[sid].toServer.start)
  {
    hide ConnOK, QueueOK, Delivered, TxOK, RxOK, Reachable, FlowOK, CrossOK, Extends;
    ReachableOK(w);
    var a := w.sessions[sid].toServer.start;
    assert Fresh(w, w.sessions[sid]);
    SessionStart(w, sid);
    FinishAll(w, sid);
    LoginQueue(w.cap, w.client, w.server, a);
  }

  lemma SessionStart(w: World, sid: nat)
    requires SessionsOK(w) && sid < |w.sessions|
    ensures w.sessions[sid].toServer.start <= |w.server.popped|
  {
  }
}
