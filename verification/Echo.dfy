/** The echo server: every message is sent back as it came. */
module Echo {
  import opened Words
  import opened MsgHeader
  import opened Wire
  import opened RecvBuffer
  import opened SendQueue
  import opened Flows
  import opened Protocol
  import opened Recovery
  import opened Reconnect
  import opened Refinement
  import PtcpConn
  import PtcpQueue

  /** A step of anything but the application on the server, or the handler at work on one message:
      popped, then pushed back. */
  datatype Event = Plain(a: Action) | Echo(content: Content, pad: seq<byte>)

  function PushBack(content: Content, pad: seq<byte>): Action {
    Push(Server, content.msgType, content.payload, pad)
  }

  /** The handler leaves the message unpopped when the queue has no room for its copy. */
  predicate MayHappen(w: World, e: Event) {
    match e
    case Plain(a) => Enabled(w, a) && (a.Push? || a.Pop? ==> a.x.Client?)
    case Echo(content, pad) =>
      && Enabled(w, Pop(Server))
      && var w' := Step(w, Pop(Server));
      && w'.server.popped == w.server.popped + [content]
      && Enabled(w', PushBack(content, pad))
  }

  function Outcome(w: World, e: Event): World
    requires MayHappen(w, e)
  {
    match e
    case Plain(a) => Step(w, a)
    case Echo(content, pad) => Step(Step(w, Pop(Server)), PushBack(content, pad))
  }

  ghost predicate Unfolds(w: World, events: seq<Event>, w': World)
    decreases |events|
  {
    if events == [] then w' == w else MayHappen(w, events[0]) && Unfolds(Outcome(w, events[0]), events[1..], w')
  }

  /** The states of all runs in which the application on the server is the echo handler. */
  ghost predicate Echoing(w: World) {
    exists le, cap: nat, events :: 8 * cap < M32 && Unfolds(Protocol.Start(le, cap), events, w)
  }

  /** All that has come in has gone back. */
  ghost predicate InStep(w: World) {
    Reachable(w) && Contents(w.server.pushed) == w.server.popped
  }

  lemma OutcomeKeepsStep(w: World, e: Event)
    requires InStep(w) && MayHappen(w, e)
    ensures InStep(Outcome(w, e))
  {
    hide Reachable, Enabled, Step;
    match e
    case Plain(a) =>
      StepReachable(w, a);
      ServerHistoryKept(w, a);
    case Echo(content, pad) =>
      StepReachable(w, Pop(Server));
      var w1 := Step(w, Pop(Server));
      StepReachable(w1, PushBack(content, pad));
      PopPushes(w, w1, content, pad);
  }

  lemma ServerHistoryKept(w: World, a: Action)
    requires Enabled(w, a) && (a.Push? || a.Pop? ==> a.x.Client?)
    ensures Step(w, a).server.pushed == w.server.pushed && Step(w, a).server.popped == w.server.popped
  {
    hide Image, Images, Acks, Parsed, Queue.CoversAll, Queue.AckAll, Items, AppItems, TotalBlocks, Accepts;
  }

  lemma PopPushes(w: World, w1: World, content: Content, pad: seq<byte>)
    requires Enabled(w, Pop(Server)) && w1 == Step(w, Pop(Server)) && Enabled(w1, PushBack(content, pad))
    requires w1.server.popped == w.server.popped + [content] && Contents(w.server.pushed) == w.server.popped
    ensures Contents(Step(w1, PushBack(content, pad)).server.pushed) == Step(w1, PushBack(content, pad)).server.popped
  {
    hide Items, AppItems, TotalBlocks, ContentOfItem;
    var ms := w.server.pushed;
    var m := Msg(content.msgType, w1.server.q.ack, content.payload, pad);
    assert Contents(ms + [m]) == Contents(ms) + [content];
  }

  lemma {:induction false} UnfoldsInStep(w: World, events: seq<Event>, w': World)
    requires InStep(w) && Unfolds(w, events, w')
    ensures InStep(w')
    decreases |events|
  {
    hide InStep, MayHappen, Outcome;
    if events != [] {
      OutcomeKeepsStep(w, events[0]);
      UnfoldsInStep(Outcome(w, events[0]), events[1..], w');
    }
  }

  lemma EchoingInStep(w: World)
    requires Echoing(w)
    ensures InStep(w)
  {
    hide Unfolds, Reachable;
    var le, cap: nat, events :| 8 * cap < M32 && Unfolds(Protocol.Start(le, cap), events, w);
    var start := Protocol.Start(le, cap);
    assert Reachable(start) by { StartReachable(le, cap); }
    UnfoldsInStep(start, events, w);
  }

  /** What comes back to the client is what it has sent, from the first message on and in order,
      over any number of disconnects, crashes between calls of the handler, and reconnects. */
  lemma EchoIsPrefix(w: World)
    requires Echoing(w)
    ensures w.client.popped <= Contents(w.client.pushed)
  {
    hide Echoing, Reachable, Contents, Intact;
    EchoingInStep(w);
    ExactlyOnceInOrder(w);
    IntactContents(w.client, w.server);
    IntactContents(w.server, w.client);
  }

  lemma IntactContents(e: Endpoint, peer: Endpoint)
    requires Intact(e, peer)
    ensures peer.popped <= Contents(e.pushed)
  {
  }

  // ----- A crash inside the handler

  /** The server dies between the pop and the push of the handler. */
  function Cut(w: World): World
    requires Enabled(w, Pop(Server))
  {
    CrashStep(Step(w, Pop(Server)), Server)
  }

  /** A run without the handler: logins, sends, reads, crashes, and whatever the client does. */
  ghost predicate Leads(w: World, w': World) {
    exists events: seq<Event> :: Unfolds(w, events, w') && forall i :: 0 <= i < |events| ==> events[i].Plain?
  }

  lemma {:induction false} PlainRun(w: World, events: seq<Event>, w': World)
    requires Reachable(w) && Unfolds(w, events, w') && forall i :: 0 <= i < |events| ==> events[i].Plain?
    ensures Reachable(w') && w'.server.pushed == w.server.pushed && w'.server.popped == w.server.popped
    decreases |events|
  {
    hide Reachable, Enabled, Step;
    if events != [] {
      StepReachable(w, events[0].a);
      ServerHistoryKept(w, events[0].a);
      PlainRun(Outcome(w, events[0]), events[1..], w');
    }
  }

  /** A message whose copy is lost because the server dies between pop and push: whatever happens up to
      the next echo, re-login included, that echo stands where the client expects the lost one, and
      what the server has sent is still an echo of what the client has sent if and only if the two
      messages are equal. */
  lemma LostBetweenPopAndPush(w: World, w3: World, lost: Content, next: Content, pad: seq<byte>)
    requires InStep(w) && Enabled(w, Pop(Server))
    requires Step(w, Pop(Server)).server.popped == w.server.popped + [lost]
    requires Leads(Cut(w), w3) && MayHappen(w3, Echo(next, pad))
    ensures var w4, n := Outcome(w3, Echo(next, pad)), |w.server.pushed|;
      && |w4.server.pushed| == n + 1 && ContentOf(w4.server.pushed[n]) == next
      && n < |w4.client.pushed| && ContentOf(w4.client.pushed[n]) == lost
      && (Contents(w4.server.pushed) <= Contents(w4.client.pushed) <==> next == lost)
  {
    hide Reachable, Enabled, Step, Contents, Unfolds, Outcome, MayHappen;
    CutHistory(w);
    var events: seq<Event> :| Unfolds(Cut(w), events, w3) && forall i :: 0 <= i < |events| ==> events[i].Plain?;
    PlainRun(Cut(w), events, w3);
    var w4 := Outcome(w3, Echo(next, pad));
    EchoHistory(w3, next, pad);
    ServedContents(w4);
    var P, C := w.server.popped, Contents(w4.client.pushed);
    assert w4.server.popped == P + [lost, next];
    assert w4.server.popped[|P|] == lost;
    assert Contents(w4.server.pushed) == P + [next];
    assert C[|P|] == lost && C[..|P|] == P;
    assert (P + [next])[|P|] == next;
  }

  lemma CutHistory(w: World)
    requires Reachable(w) && Enabled(w, Pop(Server))
    ensures Reachable(Cut(w)) && Enabled(Step(w, Pop(Server)), Crash(Server))
    ensures Cut(w).server.pushed == w.server.pushed && Cut(w).server.popped == Step(w, Pop(Server)).server.popped
    ensures Cut(w).serverConn == NoConn && Cut(w).client == w.client && Cut(w).cap == w.cap && Cut(w).le == w.le
  {
    hide Reachable, Items, AppItems, ContentOfItem;
    StepReachable(w, Pop(Server));
    ReachableWired(Step(w, Pop(Server)));
    StepReachable(Step(w, Pop(Server)), Crash(Server));
  }

  lemma EchoHistory(w: World, next: Content, pad: seq<byte>)
    requires Reachable(w) && MayHappen(w, Echo(next, pad))
    ensures var w' := Outcome(w, Echo(next, pad));
      && Reachable(w')
      && w'.server.popped == w.server.popped + [next]
      && |w'.server.pushed| == |w.server.pushed| + 1 && ContentOf(w'.server.pushed[|w.server.pushed|]) == next
      && Contents(w'.server.pushed) == Contents(w.server.pushed) + [next]
  {
    hide Reachable, Items, AppItems, TotalBlocks, ContentOfItem;
    StepReachable(w, Pop(Server));
    StepReachable(Step(w, Pop(Server)), PushBack(next, pad));
    var m := Msg(next.msgType, Step(w, Pop(Server)).server.q.ack, next.payload, pad);
    assert Contents(w.server.pushed + [m]) == Contents(w.server.pushed) + [next];
  }

  lemma ServedContents(w: World)
    requires Reachable(w)
    ensures w.server.popped <= Contents(w.client.pushed)
  {
    hide Reachable, Contents, Intact;
    ExactlyOnceInOrder(w);
    IntactContents(w.client, w.server);
  }

  // ----- A run in which an echo is lost

  lemma {:induction false} UnfoldsThen(w: World, events: seq<Event>, w1: World, e: Event)
    requires Unfolds(w, events, w1) && MayHappen(w1, e)
    ensures Unfolds(w, events + [e], Outcome(w1, e))
    decreases |events|
  {
    hide MayHappen, Outcome;
    if events == [] {
      assert Unfolds(Outcome(w, e), [], Outcome(w1, e));
      assert ([] + [e])[1..] == [];
    } else {
      UnfoldsThen(Outcome(w, events[0]), events[1..], w1, e);
      assert (events + [e])[1..] == events[1..] + [e];
    }
  }

  /** One more step in a run without the handler. */
  lemma LeadsOn(w: World, w1: World, a: Action)
    requires Leads(w, w1) && Reachable(w1) && MayHappen(w1, Plain(a))
    ensures Leads(w, Step(w1, a)) && Reachable(Step(w1, a))
  {
    hide Unfolds, Reachable, Enabled, Step;
    var events: seq<Event> :| Unfolds(w, events, w1) && forall i :: 0 <= i < |events| ==> events[i].Plain?;
    UnfoldsThen(w, events, w1, Plain(a));
    StepReachable(w1, a);
  }

  lemma LeadsNowhere(w: World)
    ensures Leads(w, w)
  {
    assert Unfolds(w, [], w);
  }

  /** Both ends log in on a new session. */
  lemma JoinPlainly(w0: World, w: World) returns (w': World)
    requires Leads(w0, w) && Reachable(w) && w.clientConn == NoConn && w.serverConn == NoConn && w.waiting.None?
    ensures Leads(w0, w') && Reachable(w') && Joined(w') && SamePast(w, w') && w'.cap == w.cap
  {
    hide Reachable, Leads, Inv, HandleLoginStep, FinishLoginStep;
    ReachableWired(w);
    LeadsOn(w0, w, SendLogin);
    var w1 := Step(w, SendLogin);
    ReachableOK(w1);
    AwaitedLoginJoins(w1);
    var i, sid := w1.waiting.value, |w1.sessions|;
    LeadsOn(w0, w1, HandleLogin(i, true));
    var w2 := Step(w1, HandleLogin(i, true));
    LeadsOn(w0, w2, FinishLogin(sid));
    w' := Step(w2, FinishLogin(sid));
    StepKeepsConfig(w1, HandleLogin(i, true));
    StepKeepsConfig(w2, FinishLogin(sid));
  }

  /** Everything the client has pushed goes out and is read. */
  lemma PassOn(w0: World, w: World) returns (w': World)
    requires Leads(w0, w) && Reachable(w) && Joined(w) && w.server.pushed == []
    requires |w.server.popped| < |w.client.pushed|
    ensures Leads(w0, w') && Reachable(w') && Enabled(w', Pop(Server)) && w'.cap == w.cap
    ensures w'.client.pushed == w.client.pushed && w'.server.pushed == [] && w'.server.popped == w.server.popped
  {
    hide Reachable, Leads, Inv, Enabled, Step, Full, ReadAll;
    ReachableOK(w);
    CanSend(w, Client);
    var n := 8 * (TotalBlocks(w.client.q.msgs) - w.client.q.sent);
    LeadsOn(w0, w, Send(Client, n, false));
    AfterSendAll(w, Client, n);
    ServerHistoryKept(w, Send(Client, n, false));
    StepKeepsConfig(w, Send(Client, n, false));
    var w1 := Step(w, Send(Client, n, false));
    ReachableOK(w1);
    AllBytesSent(w1, Client);
    w' := ReadOver(w0, w1);
    ReachableOK(w');
    CanPop(w', Server);
  }

  lemma ReadOver(w0: World, w: World) returns (w': World)
    requires Leads(w0, w) && Reachable(w) && Joined(w) && Full(w, Client)
    ensures Leads(w0, w') && Reachable(w') && Joined(w') && Full(w', Client) && ReadAll(w', Server) && w'.cap == w.cap
    ensures w'.client.pushed == w.client.pushed
    ensures w'.server.pushed == w.server.pushed && w'.server.popped == w.server.popped
  {
    hide Reachable, Leads, Inv, Enabled, Step;
    ReachableOK(w);
    CanRead(w, Server);
    var n := |w.sessions[w.clientConn.sid].Out(Client).bytes| - w.serverConn.rx;
    LeadsOn(w0, w, Front(Server, n));
    AfterReadAll(w, Server, n);
    ServerHistoryKept(w, Front(Server, n));
    StepKeepsConfig(w, Front(Server, n));
    w' := Step(w, Front(Server, n));
  }

  /** The client pushes a message. */
  lemma PushPlainly(w0: World, w: World, m: Msg) returns (w': World)
    requires Leads(w0, w) && Reachable(w) && Joined(w) && ValidMsg(m) && IsApp(m) && m.stamp == w.client.q.ack
    requires TotalBlocks(w.client.q.msgs) + MsgBlocks(m) <= w.cap
    ensures Leads(w0, w') && Reachable(w') && Joined(w') && w'.cap == w.cap
    ensures w'.client.pushed == w.client.pushed + [m] && w'.client.q == w.client.q.Push(m.msgType, m.payload, m.pad)
    ensures w'.server == w.server
  {
    hide Reachable, Leads, ValidMsg, TotalBlocks;
    ReachableWired(w);
    LeadsOn(w0, w, Push(Client, m.msgType, m.payload, m.pad));
    w' := Step(w, Push(Client, m.msgType, m.payload, m.pad));
  }

  /** Two messages of a client that has popped nothing, with room for both and for a copy. */
  predicate TwoMessages(a: Msg, b: Msg, cap: nat) {
    && ValidMsg(a) && IsApp(a) && a.stamp == 0 && ValidMsg(b) && IsApp(b) && b.stamp == 0
    && MsgBlocks(a) + MsgBlocks(b) <= cap
  }

  /** Two messages have arrived at the server, and none has been popped. */
  lemma TwoArrive(cap: nat, a: Msg, b: Msg) returns (w: World)
    requires 8 * cap < M32 && TwoMessages(a, b, cap)
    ensures Echoing(w) && InStep(w) && Enabled(w, Pop(Server)) && w.cap == cap
    ensures w.client.pushed == [a, b] && w.server.pushed == [] && w.server.popped == []
  {
    hide Reachable, Leads, Joined, ValidMsg, Enabled, Echoing, InStep;
    var start := Protocol.Start(true, cap);
    StartReachable(true, cap);
    LeadsNowhere(start);
    w := JoinPlainly(start, start);
    IdleClient(w);
    w := PushPlainly(start, w, a);
    OneBlock(a);
    w := PushPlainly(start, w, b);
    w := PassOn(start, w);
    LeadsEchoing(start, w);
    EchoingInStep(w);
  }

  lemma IdleClient(w: World)
    requires Reachable(w) && w.client.pushed == [] && w.client.popped == []
    ensures w.client.q == EMPTY_QUEUE && TotalBlocks(w.client.q.msgs) == 0
  {
    hide Reachable, SessionsOK, ConnOK, LoginsOK, Delivered;
    ReachableOK(w);
  }

  lemma LeadsEchoing(start: World, w: World)
    requires Leads(start, w) && 8 * start.cap < M32 && start == Protocol.Start(start.le, start.cap)
    ensures Echoing(w)
  {
    hide Unfolds;
  }

  /** After the cut both ends log in again and the second message arrives; its echo is possible. */
  lemma SecondArrives(w: World, b: Msg) returns (w3: World)
    requires InStep(w) && Enabled(w, Pop(Server)) && ValidMsg(b) && IsApp(b) && MsgBlocks(b) <= w.cap
    requires w.server.pushed == [] && w.server.popped == [] && |w.client.pushed| == 2 && w.client.pushed[1] == b
    ensures Leads(Cut(w), w3) && MayHappen(w3, Echo(ContentOf(b), b.pad))
  {
    hide Reachable, Leads, Joined, Enabled, Step, ValidMsg, PopStep;
    CutHistory(w);
    PoppedNext(w, Server);
    LeadsNowhere(Cut(w));
    w3 := CrashClient(Cut(w));
    w3 := JoinPlainly(Cut(w), w3);
    w3 := PassOn(Cut(w), w3);
    CanEcho(w3, b);
  }

  lemma CrashClient(w: World) returns (w': World)
    requires Reachable(w) && w.serverConn == NoConn && Leads(w, w)
    ensures Leads(w, w') && Reachable(w') && w'.clientConn == NoConn && w'.serverConn == NoConn && w'.waiting.None?
    ensures w'.client == w.client && w'.server == w.server && w'.cap == w.cap
  {
    hide Reachable, Leads;
    ReachableWired(w);
    LeadsOn(w, w, Crash(Client));
    w' := Step(w, Crash(Client));
  }

  lemma CanEcho(w: World, m: Msg)
    requires Reachable(w) && Enabled(w, Pop(Server)) && w.server.pushed == []
    requires |w.server.popped| < |w.client.pushed| && w.client.pushed[|w.server.popped|] == m
    requires ValidMsg(m) && IsApp(m) && MsgBlocks(m) <= w.cap
    ensures MayHappen(w, Echo(ContentOf(m), m.pad))
  {
    hide Reachable, Items, AppItems, ContentOfItem;
    PoppedNext(w, Server);
    StepReachable(w, Pop(Server));
    ReachableWired(Step(w, Pop(Server)));
    EmptyServerQueue(w);
  }

  lemma EmptyServerQueue(w: World)
    requires Reachable(w) && w.server.pushed == []
    ensures w.server.q.msgs == [] && TotalBlocks(w.server.q.msgs) == 0
  {
    hide Reachable, SessionsOK, ConnOK, LoginsOK, Delivered;
    ReachableOK(w);
  }

  /** It does happen: for any two different messages there is such a run, and the echo of the second
      goes out where the client expects that of the first. */
  lemma EchoLost(cap: nat, a: Msg, b: Msg) returns (w: World, w3: World)
    requires 8 * cap < M32 && TwoMessages(a, b, cap) && ContentOf(a) != ContentOf(b)
    ensures Echoing(w) && Enabled(w, Pop(Server)) && w.client.pushed == [a, b] && w.server.pushed == []
    ensures Leads(Cut(w), w3) && MayHappen(w3, Echo(ContentOf(b), b.pad))
    ensures var w4 := Outcome(w3, Echo(ContentOf(b), b.pad));
      && |w4.server.pushed| == 1 && ContentOf(w4.server.pushed[0]) == ContentOf(b)
      && 0 < |w4.client.pushed| && ContentOf(w4.client.pushed[0]) == ContentOf(a)
      && !(Contents(w4.server.pushed) <= Contents(w4.client.pushed))
  {
    hide Reachable, Leads, Enabled, Step, Echoing, MayHappen, Outcome, Contents, ValidMsg;
    w := TwoArrive(cap, a, b);
    PoppedNext(w, Server);
    w3 := SecondArrives(w, b);
    LostBetweenPopAndPush(w, w3, ContentOf(a), ContentOf(b), b.pad);
  }

  // ----- The handler itself

  lemma ClientMessage(w: World)
    requires Reachable(w) && |w.server.popped| < |w.client.pushed|
    ensures var m := w.client.pushed[|w.server.popped|]; IsApp(m) && ValidMsg(m)
  {
    hide Reachable, SessionsOK, ConnOK, LoginsOK, ValidMsg, TotalBlocks, Delivered;
    ReachableOK(w);
  }

  /** The message the handler is called with. */
  ghost predicate Called(c: Connection, w: World)
    reads c, c.recvbuf, c.q, c.q.blk
  {
    Represents(c, w, Server) && c.pre != [] && HeadIsApp(w.le, c.pre) && |w.server.popped| < |w.client.pushed|
  }

  /** The first half of the handler: room for a copy of the message, and the copy. */
  method CopyMessage(c: Connection, ghost w: World) returns (ok: bool, size: u16)
    requires Called(c, w)
    modifies c.q, c.q.blk
    ensures Called(c, w) && c.q.model == old(c.q.model)
    ensures var m := w.client.pushed[|w.server.popped|];
      && (ok <==> TotalBlocks(w.server.q.msgs) + MsgBlocks(m) <= w.cap)
      && (ok ==> c.q.Reserved(size) && ContentOf(c.q.Pending(size)) == ContentOf(m) && m.msgType != 0)
  {
    hide Reachable, Apps, Items, TotalBlocks, Matches, HeadIsApp, LoadHeader,
      PtcpQueue.ReservedAt, PtcpQueue.MsgAt, PtcpQueue.PTCPQueue.Valid, PtcpConn.PTCPConnection.RxValid;
    HeadReady(c, w);
    MatchedQueue(c.q.model, !c.IsClosed(), c.Stream(), |Apps(w.le, c.consumed)|, w, Server);
    ClientMessage(w);
    var header := LoadHeader(c.q.hostLittle, c.recvbuf[..][c.readIdx..c.readIdx + HEADER_SIZE]);
    size := header.size;
    var payload := c.recvbuf[..][c.readIdx + HEADER_SIZE..c.readIdx + size];
    ok := c.q.Alloc(size - HEADER_SIZE);
    if ok {
      c.q.Fill(header.msgType, payload);
    }
  }

  /** `OnClientMsg`, called with a message `Front` has returned: allocate, copy, pop, push.  It is the
      machine's `Echo`, unless there is no room; then the message stays where it is. */
  method OnClientMsg(c: Connection, ghost w: World, script: seq<PtcpConn.SendResult>)
    returns (echoed: bool, ghost pad: seq<byte>, emitted: seq<byte>, ghost w': World)
    requires Called(c, w) && MayPop(c.q.model)
    modifies c, c.q, c.q.blk
    ensures var m := w.client.pushed[|w.server.popped|];
      && (echoed <==> TotalBlocks(w.server.q.msgs) + MsgBlocks(m) <= w.cap)
      && (echoed ==> Echoed(w, w', ContentOf(m), pad))
    ensures Represents(c, w', Server) && (!echoed ==> w' == w)
  {
    hide Reachable, Acts, Apps, Items, TotalBlocks, Enabled, Step, Matches, SameHistory, HeadIsApp, Emitted,
      PushedOne, JustPushed, Echoed, MayPop,
      PtcpQueue.ReservedAt, PtcpQueue.PTCPQueue.Valid, PtcpConn.PTCPConnection.RxValid, PtcpConn.PTCPConnection.InPlace;
    w', pad, emitted := w, [], [];
    var size: u16;
    echoed, size := CopyMessage(c, w);
    if echoed {
      ghost var w1 := RunPop(c, w, Server);
      ghost var copy := c.q.Pending(size);
      pad := copy.pad;
      emitted, w' := PushReserved(c, w1, Server, size, script);
      EchoDone(w, w1, w', copy);
    }
  }

  lemma EchoDone(w: World, w1: World, w': World, copy: Msg)
    requires Enabled(w, Pop(Server)) && w1 == Step(w, Pop(Server))
    requires w1.server.popped == w.server.popped + [ContentOf(copy)]
    requires JustPushed(w1, w', Server, copy)
    ensures Echoed(w, w', ContentOf(copy), copy.pad)
  {
    hide Enabled, Step, Acts, SameHistory;
  }

  lemma HeadReady(c: Connection, w: World)
    requires Represents(c, w, Server) && c.pre != [] && HeadIsApp(w.le, c.pre)
    ensures |w.server.popped| < |w.client.pushed| && Shows(c, ContentOf(w.client.pushed[|w.server.popped|]))
  {
    hide Reachable, Apps, HeadIsApp, Shows, PtcpConn.PTCPConnection.RxValid, PtcpConn.PTCPConnection.InPlace;
    c.HeadInPlace();
    FoundIsNext(c, w, Server);
  }

  /** The machine has echoed the message, and then at most sent. */
  ghost predicate Echoed(w: World, w': World, content: Content, pad: seq<byte>) {
    && MayHappen(w, Echo(content, pad))
    && Acts(Outcome(w, Echo(content, pad)), w', Server) && SameHistory(Outcome(w, Echo(content, pad)), w', Server)
  }
}
