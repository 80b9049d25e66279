/** From every reachable state one reconnect delivers everything that is still undelivered. */
module Reconnect {
  import opened Words
  import opened Wire
  import opened SendQueue
  import opened Flows
  import opened Protocol
  import opened ProtocolSteps
  import opened Recovery

  ghost predicate Reaches(w: World, w': World) {
    exists run :: IsRun(w, run) && After(w, run) == w'
  }

  lemma ReachesSelf(w: World)
    ensures Reaches(w, w)
  {
    assert IsRun(w, []) && After(w, []) == w;
  }

  lemma {:induction false} RunConcat(w: World, a: seq<Action>, b: seq<Action>)
    requires IsRun(w, a) && IsRun(After(w, a), b)
    ensures IsRun(w, a + b) && After(w, a + b) == After(After(w, a), b)
    decreases |a|
  {
    hide Enabled, Step;
    if a == [] {
      assert a + b == b;
    } else {
      RunConcat(Step(w, a[0]), a[1..], b);
      assert (a + b)[0] == a[0] && (a + b)[1..] == a[1..] + b;
    }
  }

  /** One more step at the end of a run. */
  lemma ReachesStep(w: World, w1: World, a: Action)
    requires Reaches(w, w1) && Inv(w1) && Enabled(w1, a)
    ensures Reaches(w, Step(w1, a)) && Inv(Step(w1, a))
  {
    hide Inv, Enabled, Step;
    StepKeepsInv(w1, a);
    var run :| IsRun(w, run) && After(w, run) == w1;
    assert IsRun(w1, [a]) && After(w1, [a]) == Step(w1, a) by {
      OneStep(w1, a);
    }
    RunConcat(w, run, [a]);
  }

  lemma OneStep(w: World, a: Action)
    requires Enabled(w, a)
    ensures IsRun(w, [a]) && After(w, [a]) == Step(w, a)
  {
  }

  lemma StepKeepsConfig(w: World, a: Action)
    requires Enabled(w, a)
    ensures Step(w, a).le == w.le && Step(w, a).cap == w.cap
  {
    hide Image, Images, Acks, Parsed, Queue.CoversAll, Queue.AckAll, Items, AppItems, TotalBlocks, Accepts;
  }

  lemma {:induction false} RunKeepsConfig(w: World, run: seq<Action>)
    requires IsRun(w, run)
    ensures After(w, run).le == w.le && After(w, run).cap == w.cap
    decreases |run|
  {
    hide Enabled, Step;
    if run != [] {
      StepKeepsConfig(w, run[0]);
      RunKeepsConfig(Step(w, run[0]), run[1..]);
    }
  }

  lemma ReachesConfig(w: World, w': World)
    requires Reaches(w, w')
    ensures w'.le == w.le && w'.cap == w.cap
  {
    hide IsRun, After;
    var run :| IsRun(w, run) && After(w, run) == w';
    RunKeepsConfig(w, run);
  }

  /** No message that `x` still has to send will be older than 2^31 pops when all is delivered. */
  ghost predicate Young(w: World, x: Side) {
    forall i :: w.Ep(x).q.base <= i < |w.Ep(x).pushed| ==>
      |w.Ep(Other(x)).pushed| - w.Ep(x).pushed[i].stamp < HALF32
  }

  /** What the way to delivery keeps: nothing more is pushed, no base goes back. */
  ghost predicate Onward(w: World, w': World) {
    && Reaches(w, w') && Inv(w')
    && w'.client.pushed == w.client.pushed && w'.server.pushed == w.server.pushed
    && w.client.q.base <= w'.client.q.base && w.server.q.base <= w'.server.q.base
  }

  /** Both sides on one session, `Full`: all of the plan sent, `ReadAll`: all of it received. */
  predicate Joined(w: World) {
    && w.Open(Client) && w.Open(Server) && w.waiting.None?
    && w.clientConn.sid == w.serverConn.sid < |w.sessions|
  }

  ghost predicate Full(w: World, x: Side)
    requires Joined(w)
  {
    var f := w.sessions[w.clientConn.sid].Out(x);
    && |f.bytes| == 8 * TotalBlocks(f.plan)
    && f.start + |AppMsgs(f.plan)| == |w.Ep(x).pushed|
  }

  predicate ReadAll(w: World, x: Side)
    requires Joined(w)
  {
    w.ConnOf(x).rx == |w.sessions[w.clientConn.sid].Out(Other(x)).bytes|
  }

  // ----- Reconnecting

  /** Both ends may even crash first: the login succeeds and joins them on a new session. */
  lemma Rejoin(w: World) returns (w': World)
    requires Inv(w)
    ensures Onward(w, w') && Joined(w')
  {
    hide Inv, Enabled, Step, IsRun, After;
    ReachesSelf(w);
    var w1 := CrashBoth(w);
    w' := LogIn(w, w1);
  }

  lemma CrashBoth(w: World) returns (w': World)
    requires Inv(w) && Reaches(w, w)
    ensures Onward(w, w') && w'.clientConn == NoConn && w'.serverConn == NoConn && w'.waiting == None
  {
    hide Inv, Reaches;
    CanCrash(w, Client);
    ReachesStep(w, w, Crash(Client));
    var w1 := Step(w, Crash(Client));
    CanCrash(w1, Server);
    ReachesStep(w, w1, Crash(Server));
    w' := Step(w1, Crash(Server));
  }

  lemma CanCrash(w: World, x: Side)
    requires Inv(w)
    ensures Enabled(w, Crash(x))
  {
  }

  lemma LogIn(w: World, w1: World) returns (w': World)
    requires Onward(w, w1) && w1.clientConn == NoConn && w1.serverConn == NoConn && w1.waiting == None
    ensures Onward(w, w') && Joined(w')
  {
    hide Inv, Reaches;
    var i, sid := |w1.logins|, |w1.sessions|;
    ReachesStep(w, w1, SendLogin);
    var w2 := Step(w1, SendLogin);
    AwaitedLoginJoins(w2);
    ReachesStep(w, w2, HandleLogin(i, true));
    var w3 := Step(w2, HandleLogin(i, true));
    ReachesStep(w, w3, FinishLogin(sid));
    w' := Step(w3, FinishLogin(sid));
  }

  /** Nothing has been pushed or popped, and no base has gone back. */
  ghost predicate SamePast(w: World, w': World) {
    && w'.client.pushed == w.client.pushed && w'.client.popped == w.client.popped
    && w'.server.pushed == w.server.pushed && w'.server.popped == w.server.popped
    && w.client.q.base <= w'.client.q.base && w.server.q.base <= w'.server.q.base
  }

  /** Whenever the client is waiting and the server side is not connected, the server can handle the
      request, the client can complete the login, and that joins both on a new session. */
  lemma AwaitedLoginJoins(w: World)
    requires Inv(w) && w.waiting.Some? && !w.Open(Server)
    ensures w.waiting.value < |w.logins|
    ensures Enabled(w, HandleLogin(w.waiting.value, true))
    ensures var w1, sid := Step(w, HandleLogin(w.waiting.value, true)), |w.sessions|;
      && Inv(w1) && Enabled(w1, FinishLogin(sid))
      && var w2 := Step(w1, FinishLogin(sid)); Inv(w2) && Joined(w2) && SamePast(w, w2)
  {
    hide Inv, HandleLoginStep, FinishLoginStep;
    AckableLogin(w);
    var i, sid := w.waiting.value, |w.sessions|;
    StepKeepsInv(w, HandleLogin(i, true));
    var w1 := Step(w, HandleLogin(i, true));
    JoinableSession(w1, sid);
    StepKeepsInv(w1, FinishLogin(sid));
  }

  lemma AckableLogin(w: World)
    requires Inv(w) && w.waiting.Some? && !w.Open(Server)
    ensures w.waiting.value < |w.logins| && !w.Open(Client)
    ensures var i := w.waiting.value;
      var w' := HandleLoginStep(w, i, true);
      && Enabled(w, HandleLogin(i, true))
      && w'.server.pushed == w.server.pushed && w'.server.popped == w.server.popped
      && w.server.q.base <= w'.server.q.base
      && w'.serverConn == Conn(|w.sessions|, true, 0, 0) && w'.waiting == w.waiting && w'.client == w.client
      && |w'.sessions| == |w.sessions| + 1 && w'.sessions[|w.sessions|].login == i
      && w'.clientConn == w.clientConn
  {
    hide EndpointsOK, SessionsOK, ConnOK, Accepts, QueueOK, Delivered, TxOK, RxOK, Queue.CanAck, SessionOK;
    WaitingLoginAccepted(w);
    ConnsWired(w);
    AcceptedAck(w, w.waiting.value);
    HandledSession(w, w.waiting.value);
  }

  lemma JoinableSession(w: World, sid: nat)
    requires Inv(w) && sid < |w.sessions| && w.waiting == Some(w.sessions[sid].login)
    ensures Enabled(w, FinishLogin(sid))
    ensures var w' := FinishLoginStep(w, sid);
      && w'.client.pushed == w.client.pushed && w'.client.popped == w.client.popped
      && w.client.q.base <= w'.client.q.base
      && w'.clientConn == Conn(sid, true, 0, 0) && w'.waiting.None?
      && w'.server == w.server && w'.serverConn == w.serverConn && |w'.sessions| == |w.sessions|
  {
    hide EndpointsOK, SessionsOK, ConnOK, QueueOK, Delivered, TxOK, RxOK, Queue.CanAck, FlowOK, CrossOK, Extends;
    ConnsWired(w);
    assert Fresh(w, w.sessions[sid]);
    FinishAll(w, sid);
  }

  // ----- Sending and reading everything

  lemma SendAllPending(w: World, w1: World, x: Side) returns (w': World)
    requires Onward(w, w1) && Joined(w1)
    ensures Onward(w, w') && Joined(w') && Full(w', x)
    ensures w'.sessions[w'.clientConn.sid].Out(Other(x)) == w1.sessions[w1.clientConn.sid].Out(Other(x))
    ensures w'.clientConn.sid == w1.clientConn.sid
  {
    hide Inv, Reaches, Enabled, Step, Full;
    CanSend(w1, x);
    var n := 8 * (TotalBlocks(w1.Ep(x).q.msgs) - w1.Ep(x).q.sent);
    ReachesStep(w, w1, Send(x, n, false));
    w' := Step(w1, Send(x, n, false));
    AfterSendAll(w1, x, n);
    AllBytesSent(w', x);
  }

  lemma CanSend(w: World, x: Side)
    requires Inv(w) && Joined(w)
    ensures Sendable(w, x) && Enabled(w, Send(x, 8 * (TotalBlocks(w.Ep(x).q.msgs) - w.Ep(x).q.sent), false))
  {
    hide EndpointsOK, SessionsOK, ConnOK, LoginsOK, TotalBlocks, QueueOK;
    ConnsWired(w);
    EndpointSendable(w, x);
  }

  lemma EndpointSendable(w: World, x: Side)
    requires EndpointsOK(w)
    ensures Sendable(w, x)
  {
  }

  /** A step that pushes nothing and moves no base back, on the same session. */
  ghost predicate Gentle(w: World, w': World) {
    && Joined(w) && Joined(w') && w'.clientConn.sid == w.clientConn.sid
    && w'.client.pushed == w.client.pushed && w'.server.pushed == w.server.pushed
    && w.client.q.base <= w'.client.q.base && w.server.q.base <= w'.server.q.base
  }

  ghost predicate SentAll(w: World, w': World, x: Side) {
    && Gentle(w, w')
    && w'.Ep(x).q.sent == TotalBlocks(w'.Ep(x).q.msgs)
    && w'.sessions[w'.clientConn.sid].Out(Other(x)) == w.sessions[w.clientConn.sid].Out(Other(x))
  }

  lemma AfterSendAll(w: World, x: Side, n: nat)
    requires Joined(w) && Enabled(w, Send(x, n, false)) && n == 8 * (TotalBlocks(w.Ep(x).q.msgs) - w.Ep(x).q.sent)
    ensures SentAll(w, Step(w, Send(x, n, false)), x)
  {
    hide TotalBlocks, SendFlow, ValidMsgs;
  }

  lemma AllBytesSent(w: World, x: Side)
    requires Inv(w) && Joined(w) && w.Ep(x).q.sent == TotalBlocks(w.Ep(x).q.msgs)
    ensures Full(w, x)
  {
    hide Inv, Linked, CrossOK, TotalBlocks, AppMsgs, TxOK;
    LinkedSide(w, x);
    OpenFlowValid(w, x);
    FullFlow(w.le, w.Ep(x), w.sessions[w.clientConn.sid].Out(x));
  }

  lemma FullFlow(le: bool, e: Endpoint, f: Flow)
    requires ValidMsgs(f.plan) && ValidMsgs(e.q.msgs) && TxOK(le, e, f) && e.q.sent == TotalBlocks(e.q.msgs)
    ensures |f.bytes| == 8 * TotalBlocks(f.plan) && f.start + |AppMsgs(f.plan)| == |e.pushed|
  {
  }

  lemma ReadAllPending(w: World, w1: World, x: Side) returns (w': World)
    requires Onward(w, w1) && Joined(w1)
    ensures Onward(w, w') && Joined(w') && ReadAll(w', x)
    ensures w'.sessions == w1.sessions && w'.ConnOf(Other(x)) == w1.ConnOf(Other(x))
    ensures w'.clientConn.sid == w1.clientConn.sid
  {
    hide Inv, Reaches, Enabled, Step;
    CanRead(w1, x);
    var n := |w1.sessions[w1.clientConn.sid].Out(Other(x)).bytes| - w1.ConnOf(x).rx;
    ReachesStep(w, w1, Front(x, n));
    w' := Step(w1, Front(x, n));
    AfterReadAll(w1, x, n);
  }

  lemma CanRead(w: World, x: Side)
    requires Inv(w) && Joined(w)
    ensures w.ConnOf(x).rx <= |w.sessions[w.clientConn.sid].Out(Other(x)).bytes|
    ensures Wired(w, x)
    ensures Enabled(w, Front(x, |w.sessions[w.clientConn.sid].Out(Other(x)).bytes| - w.ConnOf(x).rx))
  {
    hide Inv;
    ConnsWired(w);
  }

  ghost predicate ReadOn(w: World, w': World, x: Side) {
    Gentle(w, w') && ReadAll(w', x) && w'.sessions == w.sessions && w'.ConnOf(Other(x)) == w.ConnOf(Other(x))
  }

  lemma AfterReadAll(w: World, x: Side, n: nat)
    requires Inv(w) && Joined(w) && Enabled(w, Front(x, n))
    requires w.ConnOf(x).rx + n == |w.sessions[w.clientConn.sid].Out(Other(x)).bytes|
    ensures ReadOn(w, Step(w, Front(x, n)), x)
  {
    hide Inv, ReadState, Queue.CoversAll, Queue.AckAll, Acks, Parsed, LastAck;
    FrontAll(w, x, n);
  }

  // ----- Popping everything

  lemma PopAllWaiting(w: World, w1: World, x: Side) returns (w': World)
    requires Onward(w, w1) && Joined(w1) && Full(w1, Other(x)) && ReadAll(w1, x) && Young(w1, x)
    ensures Onward(w, w') && Joined(w') && |w'.Ep(x).popped| == |w'.Ep(Other(x)).pushed|
    ensures w'.sessions == w1.sessions && w'.Ep(Other(x)) == w1.Ep(Other(x))
    ensures w'.ConnOf(Other(x)) == w1.ConnOf(Other(x))
    ensures w'.clientConn.sid == w1.clientConn.sid && w'.Ep(x).q.base == w1.Ep(x).q.base
    ensures w'.Ep(x).pushed == w1.Ep(x).pushed
    decreases |w1.Ep(Other(x)).pushed| - |w1.Ep(x).popped|
  {
    hide Inv, Reaches, Step, Full, ReadAll, Young, Enabled;
    PoppedAtMost(w1, x);
    if |w1.Ep(x).popped| == |w1.Ep(Other(x)).pushed| {
      w' := w1;
    } else {
      CanPop(w1, x);
      ReachesStep(w, w1, Pop(x));
      var w2 := Step(w1, Pop(x));
      AfterPop(w1, x);
      SameStreams(w1, w2, x);
      w' := PopAllWaiting(w, w2, x);
    }
  }

  ghost predicate PoppedOn(w: World, w': World, x: Side) {
    && Gentle(w, w') && w'.sessions == w.sessions
    && w'.Ep(Other(x)) == w.Ep(Other(x)) && w'.ConnOf(Other(x)) == w.ConnOf(Other(x))
    && w'.ConnOf(x).rx == w.ConnOf(x).rx && w'.Ep(x).q.base == w.Ep(x).q.base
    && |w'.Ep(x).popped| == |w.Ep(x).popped| + 1
  }

  lemma AfterPop(w: World, x: Side)
    requires Inv(w) && Joined(w) && Enabled(w, Pop(x))
    ensures PoppedOn(w, Step(w, Pop(x)), x)
  {
    hide Inv, AppItems, Items, ContentOfItem;
  }

  lemma SameStreams(w: World, w': World, x: Side)
    requires Joined(w) && Joined(w') && Full(w, Other(x)) && ReadAll(w, x) && Young(w, x)
    requires w'.sessions == w.sessions && w'.clientConn.sid == w.clientConn.sid && w'.ConnOf(x).rx == w.ConnOf(x).rx
    requires w'.Ep(Other(x)).pushed == w.Ep(Other(x)).pushed
    requires w'.Ep(x).pushed == w.Ep(x).pushed && w'.Ep(x).q.base >= w.Ep(x).q.base
    ensures Full(w', Other(x)) && ReadAll(w', x) && Young(w', x)
  {
  }

  lemma PoppedAtMost(w: World, x: Side)
    requires Inv(w)
    ensures |w.Ep(x).popped| <= |w.Ep(Other(x)).pushed|
  {
    hide QueueOK, SessionsOK, ConnOK, LoginsOK;
  }

  /** As long as something is undelivered, the next message is complete in the received bytes. */
  lemma CanPop(w: World, x: Side)
    requires Inv(w) && Joined(w) && Full(w, Other(x)) && ReadAll(w, x) && Young(w, x)
    requires |w.Ep(x).popped| < |w.Ep(Other(x)).pushed|
    ensures Enabled(w, Pop(x))
  {
    hide Inv, Linked, TxOK, CrossOK, AppItems, Items, TotalBlocks, AppMsgs, Young;
    ConnsWired(w);
    LinkedSide(w, x);
    YoungMayPop(w, x);
    var c := w.ConnOf(x);
    NextIsComplete(w.le, w.cap, w.Ep(x), w.Ep(Other(x)), w.sessions[c.sid].Out(Other(x)), w.sessions[c.sid].Out(x),
      c.rx, c.taken);
  }

  lemma NextIsComplete(le: bool, cap: nat, e: Endpoint, peer: Endpoint, fin: Flow, fout: Flow, rx: nat, taken: nat)
    requires Linked(le, cap, e, peer, fin, fout, rx, taken)
    requires rx == |fin.bytes| == 8 * TotalBlocks(fin.plan) && fin.start + |AppMsgs(fin.plan)| == |peer.pushed|
    requires |e.popped| < |peer.pushed|
    ensures taken < |AppItems(Items(le, fin.bytes[..rx]))|
  {
    hide QueueOK, Delivered, CrossOK, Items, AppItems, TotalBlocks, Images, AppMsgs, Floor, Count;
    ReceivedItems(le, fin, rx);
    CountAll(fin.plan);
    assert fin.plan[..|fin.plan|] == fin.plan;
  }

  lemma YoungMayPop(w: World, x: Side)
    requires Inv(w) && Young(w, x) && |w.Ep(x).popped| < |w.Ep(Other(x)).pushed|
    ensures MayPop(w.Ep(x).q)
  {
  }

  lemma {:induction false} CountAll(ms: seq<Msg>)
    ensures Count(ms, 8 * TotalBlocks(ms)) == |ms|
  {
    if ms != [] {
      CountAll(ms[1..]);
    }
  }

  // ----- The theorem

  /** Recovery is automatic: in every reachable state, however it came about, there is a way on,
      without any new message, after which each side has popped everything the other has pushed. */
  lemma OneReconnectDeliversAll(w: World) returns (w': World)
    requires Reachable(w) && Young(w, Client) && Young(w, Server)
    ensures Reaches(w, w')
    ensures w'.client.pushed == w.client.pushed && w'.server.pushed == w.server.pushed
    ensures w'.server.popped == Contents(w.client.pushed) && w'.client.popped == Contents(w.server.pushed)
  {
    hide Inv, Reaches, Reachable, Young, Full, ReadAll, Contents;
    ReachableOK(w);
    var w1 := Rejoin(w);
    var w2 := SendAllPending(w, w1, Client);
    var w3 := SendAllPending(w, w2, Server);
    FullAgain(w2, w3);
    var w4 := ReadAllPending(w, w3, Client);
    StillFull(w3, w4);
    var w5 := ReadAllPending(w, w4, Server);
    StillFull(w4, w5);
    StillRead(w4, w5, Client);
    StillYoung(w, w5, Client);
    var w6 := PopAllWaiting(w, w5, Client);
    StillFull(w5, w6);
    StillRead(w5, w6, Server);
    StillYoung(w, w6, Server);
    w' := PopAllWaiting(w, w6, Server);
    AllDelivered(w');
  }

  lemma FullAgain(w: World, w': World)
    requires Joined(w) && Joined(w') && Full(w, Client) && w'.clientConn.sid == w.clientConn.sid
    requires w'.sessions[w'.clientConn.sid].Out(Client) == w.sessions[w.clientConn.sid].Out(Client)
    requires w'.client.pushed == w.client.pushed
    ensures Full(w', Client)
  {
  }

  lemma StillFull(w: World, w': World)
    requires Joined(w) && Joined(w') && Full(w, Client) && Full(w, Server)
    requires w'.sessions == w.sessions && w'.clientConn.sid == w.clientConn.sid
    requires w'.client.pushed == w.client.pushed && w'.server.pushed == w.server.pushed
    ensures Full(w', Client) && Full(w', Server)
  {
  }

  lemma StillRead(w: World, w': World, x: Side)
    requires Joined(w) && Joined(w') && ReadAll(w, x)
    requires w'.sessions == w.sessions && w'.clientConn.sid == w.clientConn.sid && w'.ConnOf(x) == w.ConnOf(x)
    ensures ReadAll(w', x)
  {
  }

  lemma StillYoung(w: World, w': World, x: Side)
    requires Onward(w, w') && Young(w, x)
    ensures Young(w', x)
  {
    hide Reaches, Inv;
    assert w'.Ep(x).pushed == w.Ep(x).pushed && w'.Ep(Other(x)).pushed == w.Ep(Other(x)).pushed;
  }

  lemma AllDelivered(w: World)
    requires Inv(w) && |w.client.popped| == |w.server.pushed| && |w.server.popped| == |w.client.pushed|
    ensures w.server.popped == Contents(w.client.pushed) && w.client.popped == Contents(w.server.pushed)
  {
  }
}
