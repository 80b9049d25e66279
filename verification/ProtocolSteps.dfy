/** Every step of the protocol keeps the invariant. */
module ProtocolSteps {
  import opened Words
  import opened MsgHeader
  import opened Wire
  import opened SendQueue
  import opened Flows
  import opened Protocol

  ghost predicate Grows(e: Endpoint, e': Endpoint) {
    e.pushed <= e'.pushed && |e.popped| <= |e'.popped|
  }

  // ----- What a step of one side leaves alone

  lemma SessionGrows(le: bool, s: Session, c: Endpoint, sv: Endpoint, c': Endpoint, sv': Endpoint)
    requires SessionOK(le, s, c, sv) && Grows(c, c') && Grows(sv, sv')
    ensures SessionOK(le, s, c', sv')
  {
    hide FlowOK, CrossOK;
    FlowGrows(le, s.toServer, c, sv, c', sv');
    FlowGrows(le, s.toClient, sv, c, sv', c');
  }

  lemma KeepSessions(w: World, x: Side, e': Endpoint, c': Conn)
    requires SessionsOK(w) && Grows(w.Ep(x), e')
    ensures SessionsOK(w.Set(x, e', c'))
  {
    hide SessionOK;
    var w' := w.Set(x, e', c');
    forall i | 0 <= i < |w.sessions|
      ensures SessionOK(w.le, w.sessions[i], w'.client, w'.server)
    {
      SessionGrows(w.le, w.sessions[i], w.client, w.server, w'.client, w'.server);
    }
  }

  lemma KeepPeer(w: World, x: Side, e': Endpoint, c': Conn)
    requires ConnOK(w, Other(x))
    ensures ConnOK(w.Set(x, e', c'), Other(x))
  {
    hide RxOK, TxOK;
  }

  /** A flow that only grows keeps its session in order ... */
  lemma KeepSessionsFlow(w: World, x: Side, sid: nat, f': Flow)
    requires SessionsOK(w) && sid < |w.sessions|
    requires Extends(w.le, w.sessions[sid].Out(x), f')
    requires FlowOK(w.le, f', w.Ep(x), w.Ep(Other(x))) && CrossOK(f', w.sessions[sid].Out(Other(x)))
    ensures SessionsOK(w.SetFlow(x, sid, f'))
  {
    hide FlowOK, CrossOK, Extends;
    var s := w.sessions[sid];
    assert SessionOK(w.le, s, w.client, w.server);
    PeerUndisturbed(w.le, s.Out(x), f', s.Out(Other(x)));
    assert SessionOK(w.le, s.SetOut(x, f'), w.client, w.server);
  }

  /** ... and the other side in its. */
  lemma KeepPeerFlow(w: World, x: Side, sid: nat, f': Flow)
    requires ConnOK(w, Other(x)) && sid < |w.sessions|
    requires Extends(w.le, w.sessions[sid].Out(x), f')
    ensures ConnOK(w.SetFlow(x, sid, f'), Other(x))
  {
    hide RxOK, TxOK, Extends;
    PeerUndisturbed(w.le, w.sessions[sid].Out(x), f', w.sessions[sid].Out(Other(x)));
  }

  /** The logins are not affected by a step of the server or of a client that is not waiting. */
  ghost predicate SameLogins(w: World, w': World) {
    && w'.logins == w.logins && w'.waiting == w.waiting && |w'.sessions| == |w.sessions|
    && Grows(w.client, w'.client) && Grows(w.server, w'.server)
    && (forall i :: 0 <= i < |w.sessions| ==> w'.sessions[i].login == w.sessions[i].login)
    && (w.waiting.Some? ==> w'.client == w.client && w'.clientConn == w.clientConn)
    && (w.waiting.Some? ==> forall i :: 0 <= i < |w.sessions| ==>
          && w'.sessions[i].toServer == w.sessions[i].toServer
          && w'.sessions[i].toClient.start == w.sessions[i].toClient.start)
  }

  lemma KeepLogins(w: World, w': World)
    requires LoginsOK(w) && SameLogins(w, w')
    ensures LoginsOK(w')
  {
  }

  /** The parts of the invariant one connected side's step reads. */
  lemma LinkedSide(w: World, x: Side)
    requires Inv(w) && w.ConnOf(x).Conn?
    ensures w.ConnOf(x).sid < |w.sessions|
    ensures var c := w.ConnOf(x);
      var fin, fout := w.sessions[c.sid].Out(Other(x)), w.sessions[c.sid].Out(x);
      && Linked(w.le, w.cap, w.Ep(x), w.Ep(Other(x)), fin, fout, c.rx, c.taken)
      && CrossOK(fout, fin)
      && Wired(w, x)
      && (c.open ==> TxOK(w.le, w.Ep(x), fout))
  {
    hide QueueOK, Delivered, FlowOK, CrossOK, TxOK;
    assert SessionOK(w.le, w.sessions[w.ConnOf(x).sid], w.client, w.server);
  }

  // ----- Push

  lemma StepPush(w: World, x: Side, m: Msg)
    requires Inv(w) && Enabled(w, Push(x, m.msgType, m.payload, m.pad)) && m.stamp == w.Ep(x).q.ack
    ensures Inv(PushStep(w, x, m.msgType, m.payload, m.pad))
  {
    hide QueueOK, Delivered, FlowOK, CrossOK, TxOK, RxOK, Extends, Image, Images, TotalBlocks;
    var e, c := w.Ep(x), w.ConnOf(x);
    var e' := PushEndpoint(e, m.msgType, m.payload, m.pad);
    var w' := PushStep(w, x, m.msgType, m.payload, m.pad);
    PushQueue(w.cap, e, w.Ep(Other(x)), m);
    assert Grows(e, e');
    KeepSessions(w, x, e', c);
    KeepPeer(w, x, e', c);
    KeepLogins(w, w');
    if w.ConnOf(x).Conn? {
      LinkedSide(w, x);
      PushConn(w, x, m);
    }
  }

  lemma PushConn(w: World, x: Side, m: Msg)
    requires Inv(w) && Enabled(w, Push(x, m.msgType, m.payload, m.pad)) && m.stamp == w.Ep(x).q.ack
    requires w.ConnOf(x).Conn?
    requires var w1 := w.Set(x, PushEndpoint(w.Ep(x), m.msgType, m.payload, m.pad), w.ConnOf(x));
      SessionsOK(w1) && ConnOK(w1, Other(x))
    ensures var w' := PushStep(w, x, m.msgType, m.payload, m.pad);
      SessionsOK(w') && ConnOK(w', x) && ConnOK(w', Other(x))
  {
    hide QueueOK, Delivered, FlowOK, CrossOK, TxOK, Extends, Image, Images, TotalBlocks, AppsIn, Floor;
    LinkedSide(w, x);
    var e, c, peer := w.Ep(x), w.ConnOf(x), w.Ep(Other(x));
    var e' := PushEndpoint(e, m.msgType, m.payload, m.pad);
    var fin, fout := w.sessions[c.sid].Out(Other(x)), w.sessions[c.sid].Out(x);
    var w1 := w.Set(x, e', c);
    if c.open {
      var fout' := fout.(plan := fout.plan + [m]);
      PushAll(w, x, m);
      KeepSessionsFlow(w1, x, c.sid, fout');
      KeepPeerFlow(w1, x, c.sid, fout');
    }
  }

  lemma PushAll(w: World, x: Side, m: Msg)
    requires Inv(w) && ValidMsg(m) && IsApp(m) && m.stamp == w.Ep(x).q.ack && w.Open(x)
    ensures w.ConnOf(x).sid < |w.sessions|
    ensures var c := w.ConnOf(x);
      var fin, fout := w.sessions[c.sid].Out(Other(x)), w.sessions[c.sid].Out(x);
      var e' := PushEndpoint(w.Ep(x), m.msgType, m.payload, m.pad);
      var fout' := fout.(plan := fout.plan + [m]);
      && FlowOK(w.le, fout', e', w.Ep(Other(x))) && CrossOK(fout', fin) && Extends(w.le, fout, fout')
      && ValidMsgs(fout'.plan) && ValidMsgs(e'.q.msgs) && TxOK(w.le, e', fout')
  {
    hide Delivered, CrossOK, Extends, Image, Images, TotalBlocks, AppMsgs, PushedOK, ValidMsg, Contents;
    LinkedSide(w, x);
    var e, c, peer := w.Ep(x), w.ConnOf(x), w.Ep(Other(x));
    var fin, fout := w.sessions[c.sid].Out(Other(x)), w.sessions[c.sid].Out(x);
    QueueMsgsValid(w.cap, e);
    PushFlowOK(w.le, e, peer, fout, m);
    PushTxOK(w.le, e, fout, m);
    PushCross(fin, fout, e, c.rx, c.taken, m);
    var e' := PushEndpoint(e, m.msgType, m.payload, m.pad);
    FlowGrows(w.le, fout.(plan := fout.plan + [m]), e.(pushed := e.pushed + [m]), peer, e', peer);
  }

  // ----- Send and heartbeat

  /** More bytes or messages in a flow, and still all in order between the two sides. */
  ghost predicate Continues(le: bool, e: Endpoint, peer: Endpoint, fin: Flow, fout: Flow, fout': Flow) {
    FlowOK(le, fout', e, peer) && CrossOK(fout', fin) && Extends(le, fout, fout')
  }

  ghost predicate SendsOn(le: bool, e: Endpoint, fout: Flow) {
    ValidMsgs(fout.plan) && ValidMsgs(e.q.msgs) && TxOK(le, e, fout)
  }

  /** More unsent bytes in the flow. */
  lemma SendFlowOK(le: bool, e: Endpoint, peer: Endpoint, fin: Flow, fout: Flow, n: nat)
    requires FlowOK(le, fout, e, peer) && CrossOK(fout, fin) && ValidMsgs(e.q.msgs) && TxOK(le, e, fout)
    requires n <= 8 * (TotalBlocks(e.q.msgs) - e.q.sent)
    ensures Continues(le, e, peer, fin, fout, SendFlow(le, e, fout, n))
    ensures n % 8 == 0 ==> SendsOn(le, e.(q := e.q.Sendout(n / 8)), SendFlow(le, e, fout, n))
  {
    hide Extends, Images, TotalBlocks, AppMsgs, AppsIn, Monotone, WellTyped, ValidMsg;
    SendKeepsPlan(le, e, peer, fout, n);
  }

  lemma SendAll(w: World, x: Side, n: nat, fails: bool)
    requires Inv(w) && Enabled(w, Send(x, n, fails))
    ensures w.ConnOf(x).sid < |w.sessions|
    ensures var c := w.ConnOf(x);
      var fin, fout := w.sessions[c.sid].Out(Other(x)), w.sessions[c.sid].Out(x);
      var fout' := SendFlow(w.le, w.Ep(x), fout, n);
      && Continues(w.le, w.Ep(x), w.Ep(Other(x)), fin, fout, fout')
      && (!fails ==> SendsOn(w.le, w.Ep(x).(q := w.Ep(x).q.Sendout(n / 8)), fout'))
  {
    hide Inv, Continues, SendsOn, FlowOK, CrossOK, TxOK, RxOK, SendFlow, Images, TotalBlocks, ValidMsgs;
    LinkedSide(w, x);
    OpenFlowValid(w, x);
    var s := w.sessions[w.ConnOf(x).sid];
    SendFlowOK(w.le, w.Ep(x), w.Ep(Other(x)), s.Out(Other(x)), s.Out(x), n);
  }

  lemma SendQueueOK(w: World, x: Side, n: nat, fails: bool)
    requires Inv(w) && Enabled(w, Send(x, n, fails))
    requires !fails
    ensures QueueOK(w.cap, w.Ep(x).(q := w.Ep(x).q.Sendout(n / 8)))
  {
    hide Delivered, PushedOK, TotalBlocks, Images, SessionsOK, ConnOK, LoginsOK;
  }

  /** A step that adds to the flow of `x` and changes no more of `x` than its send index and whether
      it is open. */
  lemma SentKeepsInv(w: World, x: Side, fout': Flow, sent: nat, open: bool)
    requires w.Open(x) && w.ConnOf(x).sid < |w.sessions|
    requires var s := w.sessions[w.ConnOf(x).sid];
      Continues(w.le, w.Ep(x), w.Ep(Other(x)), s.Out(Other(x)), s.Out(x), fout')
    requires var e' := w.Ep(x).(q := w.Ep(x).q.(sent := sent));
      QueueOK(w.cap, e') && (open ==> SendsOn(w.le, e', fout'))
    requires Inv(w)
    ensures var e, c := w.Ep(x), w.ConnOf(x);
      Inv(w.SetFlow(x, c.sid, fout').Set(x, e.(q := e.q.(sent := sent)), c.(open := open)))
  {
    hide QueueOK, FlowOK, CrossOK, TxOK, RxOK, Extends, SessionOK, Contents, ValidMsgs;
    var e, c := w.Ep(x), w.ConnOf(x);
    var fin, fout := w.sessions[c.sid].Out(Other(x)), w.sessions[c.sid].Out(x);
    var e', c' := e.(q := e.q.(sent := sent)), c.(open := open);
    LinkedSide(w, x);
    ExtendsStart(w.le, fout, fout');
    KeepSessionsFlow(w, x, c.sid, fout');
    KeepPeerFlow(w, x, c.sid, fout');
    var w1 := w.SetFlow(x, c.sid, fout');
    KeepSessions(w1, x, e', c');
    KeepPeer(w1, x, e', c');
    KeepLogins(w, w1.Set(x, e', c'));
    RxOfQueue(e, e', fin, fout, fout', c.rx, c.taken);
  }

  lemma StepSend(w: World, x: Side, n: nat, fails: bool)
    requires Inv(w) && Enabled(w, Send(x, n, fails))
    ensures Inv(SendStep(w, x, n, fails))
  {
    hide Continues, SendsOn, Images, TotalBlocks, SendFlow, ConnOK, SessionsOK, LoginsOK, PushedOK, Contents;
    SendAll(w, x, n, fails);
    var e, c := w.Ep(x), w.ConnOf(x);
    var fout' := SendFlow(w.le, e, w.sessions[c.sid].Out(x), n);
    if fails {
      SentKeepsInv(w, x, fout', e.q.sent, false);
    } else {
      SendQueueOK(w, x, n, fails);
      SentKeepsInv(w, x, fout', e.q.sent + n / 8, c.open);
    }
  }

  lemma ExtendsStart(le: bool, f: Flow, f': Flow)
    requires Extends(le, f, f')
    ensures f'.start == f.start
  {
  }

  /** The receive side does not read the send index. */
  lemma RxOfQueue(e: Endpoint, e': Endpoint, fin: Flow, fout: Flow, fout': Flow, rx: nat, taken: nat)
    requires RxOK(e, fin, fout, rx, taken) && fout'.start == fout.start
    requires e'.popped == e.popped && e'.q.base == e.q.base
    ensures RxOK(e', fin, fout', rx, taken)
  {
  }

  lemma BeatAll(w: World, x: Side, n: nat)
    requires Inv(w) && Enabled(w, Beat(x, n))
    ensures w.ConnOf(x).sid < |w.sessions|
    ensures var c := w.ConnOf(x);
      var fin, fout := w.sessions[c.sid].Out(Other(x)), w.sessions[c.sid].Out(x);
      var fout' := BeatFlow(w.le, w.Ep(x), fout, n);
      && Continues(w.le, w.Ep(x), w.Ep(Other(x)), fin, fout, fout')
      && (n == 8 ==> SendsOn(w.le, w.Ep(x), fout'))
  {
    hide Delivered, Extends, Image, Images, TotalBlocks, AppMsgs, PushedOK, ValidMsg, Contents, AppsIn, BeatFlow, Floor;
    LinkedSide(w, x);
    var e, c := w.Ep(x), w.ConnOf(x);
    var fin, fout := w.sessions[c.sid].Out(Other(x)), w.sessions[c.sid].Out(x);
    QueueMsgsValid(w.cap, e);
    AllSent(w.le, e, fout);
    BeatFlowOK(w.le, e, w.Ep(Other(x)), fout, n);
    BeatTxOK(w.le, e, fout);
    BeatCross(w.le, fin, fout, e, c.rx, c.taken, n);
  }

  /** With nothing pending, the bytes sent are the whole plan. */
  lemma AllSent(le: bool, e: Endpoint, fout: Flow)
    requires ValidMsgs(fout.plan) && ValidMsgs(e.q.msgs) && TxOK(le, e, fout) && e.q.sent == TotalBlocks(e.q.msgs)
    ensures |fout.bytes| == |Images(le, fout.plan)|
  {
  }

  lemma StepBeat(w: World, x: Side, n: nat)
    requires Inv(w) && Enabled(w, Beat(x, n))
    ensures Inv(BeatStep(w, x, n))
  {
    hide QueueOK, Continues, SendsOn, Images, TotalBlocks, BeatFlow, ConnOK, SessionsOK, LoginsOK, Contents;
    BeatAll(w, x, n);
    var e, c := w.Ep(x), w.ConnOf(x);
    SentKeepsInv(w, x, BeatFlow(w.le, e, w.sessions[c.sid].Out(x), n), e.q.sent, n == 8);
  }

  // ----- Front and pop

  /** What one read does to the reader: the acknowledgements are honest, and the queue drops exactly
      the messages before the last of them. */
  lemma FrontAll(w: World, x: Side, n: nat)
    requires Inv(w) && Enabled(w, Front(x, n))
    ensures w.ConnOf(x).sid < |w.sessions|
    ensures var e, c := w.Ep(x), w.ConnOf(x);
      var fin, fout := w.sessions[c.sid].Out(Other(x)), w.sessions[c.sid].Out(x);
      var a := LastAck(fin, c.rx, n, e.q.base);
      && c.rx + n <= |fin.bytes|
      && AcksAre(w.le, e.q, fin, c.rx, n, a)
      && a <= e.q.End()
      && ReadState(w.le, w.cap, e.(q := e.q.DropTo(a)), w.Ep(Other(x)), fin, fout, c.rx + n, c.taken)
  {
    hide Linked, Inv, TxOK, Queue.DropTo, Queue.CoversAll, Queue.AckAll, LastAck, AcksAre, ReadState;
    LinkedSide(w, x);
    var e, c, peer := w.Ep(x), w.ConnOf(x), w.Ep(Other(x));
    var fin, fout := w.sessions[c.sid].Out(Other(x)), w.sessions[c.sid].Out(x);
    OpenFlowValid(w, x);
    FrontAcks(w.le, w.cap, e, peer, fin, fout, c.rx, c.taken, n);
    ReadLinked(w.le, w.cap, e, peer, fin, fout, c.rx, c.taken, n);
  }

  lemma OpenFlowValid(w: World, x: Side)
    requires Inv(w) && w.Open(x)
    ensures w.ConnOf(x).sid < |w.sessions|
    ensures ValidMsgs(w.sessions[w.ConnOf(x).sid].Out(x).plan) && ValidMsgs(w.Ep(x).q.msgs)
  {
    hide RxOK, TxOK;
  }

  lemma StepFront(w: World, x: Side, n: nat)
    requires Inv(w) && Enabled(w, Front(x, n))
    ensures Inv(FrontStep(w, x, n))
  {
    hide QueueOK, Delivered, FlowOK, CrossOK, TxOK, RxOK, Images, TotalBlocks, LastAck, Queue.CoversAll,
      Queue.AckAll, Acks, Parsed, ValidMsgs;
    FrontAll(w, x, n);
    var e, c := w.Ep(x), w.ConnOf(x);
    var fin := w.sessions[c.sid].Out(Other(x));
    var e' := e.(q := e.q.DropTo(LastAck(fin, c.rx, n, e.q.base)));
    var c' := c.(rx := c.rx + n);
    var w' := FrontStep(w, x, n);
    assert w' == w.Set(x, e', c');
    KeepSessions(w, x, e', c');
    KeepPeer(w, x, e', c');
    KeepLogins(w, w');
  }

  /** A pop hands over the content of the next message the peer pushed. */
  lemma PopAll(w: World, x: Side)
    requires Inv(w) && Enabled(w, Pop(x))
    ensures var e, c, peer := w.Ep(x), w.ConnOf(x), w.Ep(Other(x));
      && |e.popped| < |peer.pushed|
      && PopStep(w, x) == w.Set(x, PopEndpoint(e, ContentOf(peer.pushed[|e.popped|])), c.(taken := c.taken + 1))
      && c.taken < AppsIn(w.sessions[c.sid].Out(Other(x)).plan, c.rx)
  {
    hide Linked, Inv, TxOK, Items, AppItems, AppsIn, CrossOK;
    LinkedSide(w, x);
    var e, c, peer := w.Ep(x), w.ConnOf(x), w.Ep(Other(x));
    var fin, fout := w.sessions[c.sid].Out(Other(x)), w.sessions[c.sid].Out(x);
    PopLinked(w.le, w.cap, e, peer, fin, fout, c.rx, c.taken);
  }

  lemma PopLinked(le: bool, cap: nat, e: Endpoint, peer: Endpoint, fin: Flow, fout: Flow, rx: nat, taken: nat)
    requires Linked(le, cap, e, peer, fin, fout, rx, taken) && rx <= |fin.bytes|
    requires taken < |AppItems(Items(le, fin.bytes[..rx]))|
    ensures |e.popped| < |peer.pushed| && taken < AppsIn(fin.plan, rx)
    ensures var it := AppItems(Items(le, fin.bytes[..rx]))[taken];
      && HEADER_SIZE <= it.header.size <= HEADER_SIZE + |it.body|
      && ContentOfItem(it) == ContentOf(peer.pushed[|e.popped|])
  {
    hide QueueOK, Delivered, CrossOK, Images, TotalBlocks, Items, Floor, AppItems, ItemsOf, Count, AppMsgs,
      ContentOfItem;
    PeerPushedValid(cap, peer);
    ReceivedItems(le, fin, rx);
    NextContent(le, fin, peer, e, rx, taken);
  }

  lemma PeerPushedValid(cap: nat, e: Endpoint)
    requires QueueOK(cap, e)
    ensures ValidMsgs(e.pushed)
  {
  }

  lemma StepPop(w: World, x: Side)
    requires Inv(w) && Enabled(w, Pop(x))
    ensures Inv(PopStep(w, x))
  {
    hide QueueOK, Delivered, FlowOK, CrossOK, TxOK, Images, TotalBlocks, Items, AppItems, AppsIn, Floor, PopStep,
      SessionsOK, SessionOK, LoginsOK, ValidMsgs, ValidMsg, Contents, Parsed;
    PopAll(w, x);
    LinkedSide(w, x);
    var e, c, peer := w.Ep(x), w.ConnOf(x), w.Ep(Other(x));
    var content := ContentOf(peer.pushed[|e.popped|]);
    var e' := PopEndpoint(e, content);
    var c' := c.(taken := c.taken + 1);
    PopQueue(w.cap, e, content);
    PopDelivered(e, peer, content);
    KeepSessions(w, x, e', c');
    KeepPeer(w, x, e', c');
    KeepLogins(w, w.Set(x, e', c'));
    if c.open {
      PopTx(w.le, e, content, w.sessions[c.sid].Out(x));
    }
  }

  lemma PopTx(le: bool, e: Endpoint, content: Content, fout: Flow)
    requires ValidMsgs(fout.plan) && ValidMsgs(e.q.msgs) && TxOK(le, e, fout)
    ensures TxOK(le, PopEndpoint(e, content), fout)
  {
  }

  // ----- Close, crash, login

  lemma StepClose(w: World, x: Side)
    requires Inv(w) && Enabled(w, Close(x))
    ensures Inv(w.Set(x, w.Ep(x), w.ConnOf(x).(open := false)))
  {
    hide QueueOK, Delivered, TxOK, RxOK;
    var c' := w.ConnOf(x).(open := false);
    KeepSessions(w, x, w.Ep(x), c');
    KeepPeer(w, x, w.Ep(x), c');
    KeepLogins(w, w.Set(x, w.Ep(x), c'));
  }

  lemma StepCrash(w: World, x: Side)
    requires Inv(w) && Enabled(w, Crash(x))
    ensures Inv(CrashStep(w, x))
  {
    hide QueueOK, Delivered, TxOK, RxOK, SessionOK, LoginsOK;
    KeepSessions(w, x, w.Ep(x), NoConn);
    KeepPeer(w, x, w.Ep(x), NoConn);
    CrashLogins(w, x);
  }

  /** A client that crashes waits for no response any more. */
  lemma CrashLogins(w: World, x: Side)
    requires LoginsOK(w)
    ensures LoginsOK(CrashStep(w, x))
  {
  }

  lemma StepSendLogin(w: World)
    requires Inv(w) && Enabled(w, SendLogin)
    ensures Inv(Step(w, SendLogin))
  {
    hide QueueOK, SessionOK, TxOK, RxOK;
    QueueEnd(w.cap, w.client);
    assert forall i :: 0 <= i < |w.sessions| ==> w.sessions[i].login < |w.logins|;
    var w' := Step(w, SendLogin);
    assert forall i :: 0 <= i < |w.sessions| ==> SessionOK(w'.le, w'.sessions[i], w'.client, w'.server);
  }

  lemma QueueEnd(cap: nat, e: Endpoint)
    requires QueueOK(cap, e)
    ensures e.q.End() == |e.pushed| && e.q.ack == |e.popped|
  {
  }

  lemma StepAbandon(w: World)
    requires Inv(w) && Enabled(w, AbandonLogin)
    ensures Inv(Step(w, AbandonLogin))
  {
    hide QueueOK, SessionOK, TxOK, RxOK, Delivered;
    var w' := Step(w, AbandonLogin);
    assert forall i :: 0 <= i < |w.sessions| ==> SessionOK(w'.le, w'.sessions[i], w'.client, w'.server);
  }

  /** An accepted login acknowledges a message in the server's window. */
  lemma AcceptedAck(w: World, i: nat)
    requires Inv(w) && Enabled(w, HandleLogin(i, true)) && Accepts(w.server.q, w.logins[i])
    ensures w.server.q.base <= w.logins[i].ack <= |w.client.popped|
  {
    hide SessionOK, ConnOK, PushedOK, TotalBlocks, Contents;
    var l, q := w.logins[i], w.server.q;
    QueueMsgsValid(w.cap, w.server);
    CheckAckExact(l.ack, q.base, q.End());
  }

  /** The session a login opens: the server sends again everything from the client's
      acknowledgement on. */
  lemma HandledSession(w: World, i: nat)
    requires Inv(w) && i < |w.logins| && w.server.q.base <= w.logins[i].ack <= |w.client.popped|
    ensures w.logins[i].ack <= w.server.q.End()
    ensures var a, q := w.logins[i].ack, w.server.q;
      var e' := LoginEndpoint(w.server, a);
      var s := Session(i, Flow(q.ack, [], [], 0), Flow(a, e'.q.msgs, [], 0));
      && q.CanAck(Wrap(a)) && q.LoginAck(Wrap(a)) == e'.q
      && QueueOK(w.cap, e') && Delivered(e', w.client) && Delivered(w.client, e')
      && SessionOK(w.le, s, w.client, e')
      && ValidMsgs(e'.q.msgs) && TxOK(w.le, e', s.toClient)
      && RxOK(e', s.toServer, s.toClient, 0, 0)
  {
    hide SessionsOK, ConnOK, LoginsOK, QueueOK, TotalBlocks, Contents, Images, AppMsgs;
    var a, q := w.logins[i].ack, w.server.q;
    QueueEnd(w.cap, w.server);
    QueueEnd(w.cap, w.client);
    LoginAckExact(w.cap, w.server, a);
    LoginQueue(w.cap, w.server, w.client, a);
    var e' := LoginEndpoint(w.server, a);
    QueueMsgsValid(w.cap, e');
    LoginFlowOK(w.le, w.cap, e', w.client, a);
    EmptyFlowOK(w.le, w.client, e', q.ack);
    EmptyCounts(Flow(q.ack, [], [], 0));
  }

  lemma EmptyFlowOK(le: bool, e: Endpoint, peer: Endpoint, start: nat)
    requires start <= |e.pushed| && start <= |peer.popped|
    ensures FlowOK(le, Flow(start, [], [], 0), e, peer)
  {
  }

  lemma EmptyCounts(f: Flow)
    requires f.bytes == []
    ensures AppsIn(f.plan, 0) == 0 && Visible(f.plan, 0) == 0
  {
  }

  lemma StepHandle(w: World, i: nat, responded: bool)
    requires Inv(w) && Enabled(w, HandleLogin(i, responded))
    ensures Inv(HandleLoginStep(w, i, responded))
  {
    hide QueueOK, Delivered, FlowOK, CrossOK, TxOK, RxOK, TotalBlocks, Accepts;
    if responded && Accepts(w.server.q, w.logins[i]) {
      AcceptedAck(w, i);
      HandledSession(w, i);
      QueueEnd(w.cap, w.server);
      QueueEnd(w.cap, w.client);
      HandleKeeps(w, i);
    }
  }

  lemma HandleKeeps(w: World, i: nat)
    requires Inv(w) && i < |w.logins| && w.server.q.base <= w.logins[i].ack <= |w.client.popped|
    requires w.logins[i].ack <= w.server.q.End()
    requires var a, q := w.logins[i].ack, w.server.q;
      var e' := LoginEndpoint(w.server, a);
      var s := Session(i, Flow(q.ack, [], [], 0), Flow(a, e'.q.msgs, [], 0));
      && QueueOK(w.cap, e') && Delivered(e', w.client) && Delivered(w.client, e')
      && SessionOK(w.le, s, w.client, e')
      && ValidMsgs(e'.q.msgs) && TxOK(w.le, e', s.toClient)
      && RxOK(e', s.toServer, s.toClient, 0, 0)
    ensures var a, q := w.logins[i].ack, w.server.q;
      var e' := LoginEndpoint(w.server, a);
      var s := Session(i, Flow(q.ack, [], [], 0), Flow(a, e'.q.msgs, [], 0));
      Inv(w.Set(Server, e', Conn(|w.sessions|, true, 0, 0)).(sessions := w.sessions + [s]))
  {
    hide QueueOK, FlowOK, CrossOK, TxOK, RxOK, TotalBlocks, Accepts, SessionOK, Contents;
    var a, q := w.logins[i].ack, w.server.q;
    var e' := LoginEndpoint(w.server, a);
    var s := Session(i, Flow(q.ack, [], [], 0), Flow(a, e'.q.msgs, [], 0));
    var c' := Conn(|w.sessions|, true, 0, 0);
    KeepSessions(w, Server, e', c');
    KeepPeer(w, Server, e', c');
    ServerAckBounds(w);
  }

  lemma ServerAckBounds(w: World)
    requires EndpointsOK(w)
    ensures w.server.q.ack == |w.server.popped| && w.client.q.base <= w.server.q.ack <= |w.client.pushed|
  {
  }

  /** The client joins: its queue resumes at the server's acknowledgement. */
  lemma StepFinish(w: World, sid: nat)
    requires Inv(w) && Enabled(w, FinishLogin(sid))
    ensures Inv(FinishLoginStep(w, sid))
  {
    hide QueueOK, Delivered, FlowOK, CrossOK, TxOK, RxOK, TotalBlocks, Extends;
    assert Fresh(w, w.sessions[sid]);
    var a := w.sessions[sid].toServer.start;
    FinishAll(w, sid);
    var e' := LoginEndpoint(w.client, a);
    var f' := Flow(a, e'.q.msgs, [], 0);
    var c' := Conn(sid, true, 0, 0);
    var w1 := w.Set(Client, e', c');
    KeepSessions(w, Client, e', c');
    KeepPeer(w, Client, e', c');
    KeepSessionsFlow(w1, Client, sid, f');
    KeepPeerFlow(w1, Client, sid, f');
  }

  lemma FinishAll(w: World, sid: nat)
    requires Inv(w) && Enabled(w, FinishLogin(sid))
    ensures var s := w.sessions[sid];
      var a := s.toServer.start;
      && a <= w.client.q.End()
      && var e' := LoginEndpoint(w.client, a);
      var f' := Flow(a, e'.q.msgs, [], 0);
      && w.client.q.CanAck(Wrap(a)) && w.client.q.LoginAck(Wrap(a)) == e'.q
      && QueueOK(w.cap, e') && Delivered(e', w.server) && Delivered(w.server, e')
      && FlowOK(w.le, f', e', w.server) && CrossOK(f', s.toClient) && Extends(w.le, s.toServer, f')
      && ValidMsgs(e'.q.msgs) && TxOK(w.le, e', f')
      && RxOK(e', s.toClient, f', 0, 0)
  {
    hide Inv, QueueOK, Delivered, FlowOK, CrossOK, Extends, TxOK, RxOK, ValidMsgs;
    var s := w.sessions[sid];
    JoinedSession(w, sid);
    ClientJoins(w.le, w.cap, w.client, w.server, s.toServer, s.toClient);
  }

  lemma JoinedSession(w: World, sid: nat)
    requires sid < |w.sessions| && w.waiting == Some(w.sessions[sid].login) && Inv(w)
    ensures EndpointsOK(w) && SessionOK(w.le, w.sessions[sid], w.client, w.server) && Fresh(w, w.sessions[sid])
  {
    hide EndpointsOK, ConnOK, SessionOK;
  }

  lemma ClientJoins(le: bool, cap: nat, c: Endpoint, sv: Endpoint, out: Flow, fin: Flow)
    requires QueueOK(cap, c) && QueueOK(cap, sv) && Delivered(c, sv) && Delivered(sv, c)
    requires FlowOK(le, out, c, sv) && CrossOK(fin, out)
    requires out.plan == [] && out.bytes == [] && fin.start == |c.popped| && c.q.base <= out.start <= |c.pushed|
    ensures var a := out.start;
      && a <= c.q.End()
      && var c' := LoginEndpoint(c, a);
      var f' := Flow(a, c'.q.msgs, [], 0);
      && c.q.CanAck(Wrap(a)) && c.q.LoginAck(Wrap(a)) == c'.q
      && QueueOK(cap, c') && Delivered(c', sv) && Delivered(sv, c')
      && FlowOK(le, f', c', sv) && CrossOK(f', fin) && Extends(le, out, f')
      && ValidMsgs(c'.q.msgs) && TxOK(le, c', f')
      && RxOK(c', fin, f', 0, 0)
  {
    hide QueueOK, Delivered, TotalBlocks, TxOK, FlowOK, Images, AppsIn, Visible, ValidMsgs, Queue.CanAck, Wrap;
    var a := out.start;
    FlowStart(le, out, c, sv);
    QueueEnd(cap, c);
    LoginAckExact(cap, c, a);
    LoginQueue(cap, c, sv, a);
    var c' := LoginEndpoint(c, a);
    QueueMsgsValid(cap, c');
    LoginFlowOK(le, cap, c', sv, a);
    EmptyCounts(Flow(a, fin.plan, [], 0));
  }

  lemma FlowStart(le: bool, f: Flow, e: Endpoint, peer: Endpoint)
    requires FlowOK(le, f, e, peer)
    ensures ValidMsgs(f.plan) && f.start <= |peer.popped| && |f.bytes| <= |Images(le, f.plan)|
  {
    hide Images, AppMsgs, ValidMsgs;
  }

  // ----- All of them

  /** The invariant is inductive. */
  lemma StepKeepsInv(w: World, a: Action)
    requires Inv(w) && Enabled(w, a)
    ensures Inv(Step(w, a))
  {
    hide Inv;
    match a
    case Push(x, msgType, payload, pad) => StepPush(w, x, Msg(msgType, w.Ep(x).q.ack, payload, pad));
    case Send(x, n, fails) => StepSend(w, x, n, fails);
    case Beat(x, n) => StepBeat(w, x, n);
    case Front(x, n) => StepFront(w, x, n);
    case Pop(x) => StepPop(w, x);
    case Close(x) => StepClose(w, x);
    case Crash(x) => StepCrash(w, x);
    case SendLogin => StepSendLogin(w);
    case HandleLogin(i, responded) => StepHandle(w, i, responded);
    case FinishLogin(sid) => StepFinish(w, sid);
    case AbandonLogin => StepAbandon(w);
  }
}
