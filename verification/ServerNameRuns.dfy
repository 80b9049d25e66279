/** Histories across changes of the server's name: a way to the next login from everywhere, and runs in
    which messages are lost.
 */
module ServerNameRuns {
  import opened Words
  import opened Wire
  import opened SendQueue
  import opened Flows
  import opened Protocol
  import opened Recovery
  import opened Reconnect
  import opened Refinement
  import opened ServerName

  lemma {:induction false} HappensThen(s: State, events: seq<Event>, s1: State, more: seq<Event>, s2: State)
    requires Happens(s, events, s1) && Happens(s1, more, s2)
    ensures Happens(s, events + more, s2)
    decreases |events|
  {
    hide Possible, Tolerable, Next;
    if events == [] {
      assert events + more == more;
    } else {
      HappensThen(Next(s, events[0]), events[1..], s1, more, s2);
      assert (events + more)[1..] == events[1..] + more;
    }
  }

  lemma NothingHappens(s: State)
    ensures Happens(s, [], s)
  {
  }

  lemma OneHappens(s: State, e: Event)
    requires Possible(s, e) && Tolerable(s, e)
    ensures Happens(s, [e], Next(s, e))
  {
    hide Possible, Tolerable, Next;
    assert [e][1..] == [];
    NothingHappens(Next(s, e));
  }

  /** What has happened, up to a state that can still be in any event. */
  ghost predicate Ends(start: State, s: State) {
    OK(s) && exists events :: Happens(start, events, s)
  }

  lemma EndsHere(s: State)
    requires OK(s)
    ensures Ends(s, s)
  {
    NothingHappens(s);
  }

  /** One more event at the end of a history. */
  lemma Then(start: State, s: State, e: Event)
    requires Ends(start, s) && Possible(s, e) && Tolerable(s, e)
    ensures Ends(start, Next(s, e))
  {
    hide OK, Possible, Tolerable, Next, Happens;
    var events :| Happens(start, events, s);
    OneHappens(s, e);
    HappensThen(start, events, s, [e], Next(s, e));
    NextKeepsOK(s, e);
  }

  lemma EndsReached(start: State, s: State)
    requires Beginning(start) && Ends(start, s)
    ensures Reached(s)
  {
    hide OK, Happens, Beginning;
  }

  // ----- A way to the next login

  /** Neither end is connected, and the client is not waiting. */
  ghost predicate Down(s: State) {
    && s.home.clientConn == NoConn && s.home.waiting.None?
    && (Visiting(s) ==> !s.visit.value.w.Open(Server))
  }

  /** Only connections and waiting have changed. */
  ghost predicate SameQueues(s: State, s': State) {
    && s'.clientName == s.clientName && s'.serverName == s.serverName
    && s'.home.client == s.home.client && s'.home.server == s.home.server && s'.home.logins == s.home.logins
    && s'.home.cap == s.home.cap && s'.home.le == s.home.le
    && s'.files == s.files && s'.answered == s.answered && s'.overtaken == s.overtaken
  }

  lemma BringDown(start: State, s: State) returns (s': State)
    requires Ends(start, s) && s.clientName != s.serverName
    ensures Ends(start, s') && SameQueues(s, s') && Down(s') && Enabled(s'.home, SendLogin)
  {
    hide Reachable, Happens, Enabled, Unborn, Virgin, FilesOK;
    CrashReachable(s.home, Client);
    Then(start, s, Home(Crash(Client)));
    s' := Next(s, Home(Crash(Client)));
    CanAsk(s'.home);
    if Visiting(s') {
      CrashReachable(s'.visit.value.w, Server);
      Then(start, s', Away(Crash(Server)));
      s' := Next(s', Away(Crash(Server)));
    }
  }

  lemma CanAsk(w: World)
    requires Reachable(w) && w.clientConn == NoConn && w.waiting.None?
    ensures Enabled(w, SendLogin)
  {
    hide Reachable;
    ReachableWired(w);
  }

  /** The client sends a new request. */
  lemma AskAgain(start: State, s: State) returns (s': State)
    requires Ends(start, s) && s.clientName != s.serverName
    ensures Ends(start, s') && Possible(s', ResetLogin(|s.home.logins|, true))
    ensures s'.home.waiting == Some(|s.home.logins|)
    ensures |s'.home.logins| == |s.home.logins| + 1
    ensures s'.clientName == s.clientName && s'.serverName == s.serverName && s'.home.client == s.home.client
    ensures s'.files == s.files && s'.answered == s.answered && s'.overtaken == s.overtaken
    ensures s'.home.cap == s.home.cap && s'.home.le == s.home.le
    ensures Visiting(s') ==> !s'.visit.value.w.Open(Server)
    ensures |s.home.logins| !in s'.answered
  {
    hide Reachable, Happens, Enabled, Unborn, Virgin, FilesOK;
    s' := BringDown(start, s);
    Then(start, s', Home(SendLogin));
    s' := Next(s', Home(SendLogin));
  }

  /** From every reached state in which the names differ there is a way, without a change of name, to
      both ends joined on empty queues. */
  lemma ReconnectResets(start: State, s: State) returns (s': State)
    requires Ends(start, s) && s.clientName != s.serverName
    requires Beginning(start)
    ensures Ends(start, s') && s'.clientName == s'.serverName == s.serverName
    ensures Joined(s'.home) && Restarted(s'.home) && s'.home.server.pushed == [] && s'.files == Filed(s)
    ensures s'.overtaken == s.overtaken + Unanswered(|s.home.logins|, s.answered)
    ensures s'.home.cap == s.home.cap
  {
    hide Reached, Reachable, OK, Ends, Happens, Beginning, Enabled, Unborn, HandleLoginStep, FinishLoginStep, Joined,
      Restarted;
    var i := |s.home.logins|;
    var s1 := AskAgain(start, s);
    EndsReached(start, s1);
    NextLoginResets(s1, i);
    SameUnanswered(i, s.answered, i);
    Then(start, s1, ResetLogin(i, true));
    var s2 := Next(s1, ResetLogin(i, true));
    Then(start, s2, FinishReset(true));
    s' := Next(s2, FinishReset(true));
    SameCap(s1, i);
  }

  lemma SameCap(s: State, i: nat)
    requires Possible(s, ResetLogin(i, true)) && Possible(Next(s, ResetLogin(i, true)), FinishReset(true))
    ensures Next(Next(s, ResetLogin(i, true)), FinishReset(true)).home.cap == s.home.cap
  {
  }

  lemma {:induction false} SameUnanswered(n: nat, answered: set<nat>, i: nat)
    requires n <= i
    ensures Unanswered(n, answered + {i}) == Unanswered(n, answered)
    ensures n == i ==> Unanswered(n + 1, answered + {i}) == Unanswered(n, answered)
  {
    if n > 0 {
      SameUnanswered(n - 1, answered, i);
    }
  }

  /** A run of the protocol under a name that both ends use. */
  lemma {:induction false} HomeRun(s: State, run: seq<Action>) returns (events: seq<Event>, s': State)
    requires OK(s) && IsRun(s.home, run) && s.clientName == s.serverName != ""
    ensures Happens(s, events, s') && OK(s') && s'.home == After(s.home, run)
    ensures s'.clientName == s.clientName && s'.serverName == s.serverName && s'.files == s.files
    ensures s'.overtaken == s.overtaken
    decreases |run|
  {
    hide Enabled, Step, OK, Happens;
    if run == [] {
      events, s' := [], s;
      NothingHappens(s);
    } else {
      var e := Home(run[0]);
      assert Possible(s, e);
      OneHappens(s, e);
      NextKeepsOK(s, e);
      events, s' := HomeRun(Next(s, e), run[1..]);
      HappensThen(s, [e], Next(s, e), events, s');
      events := [e] + events;
    }
  }

  lemma HomeReaches(start: State, s: State, w': World) returns (s': State)
    requires Ends(start, s) && Reaches(s.home, w') && s.clientName == s.serverName != ""
    ensures Ends(start, s') && s'.home == w'
    ensures s'.clientName == s.clientName && s'.serverName == s.serverName && s'.files == s.files
    ensures s'.overtaken == s.overtaken
  {
    hide OK, Happens, IsRun, After;
    var run :| IsRun(s.home, run) && After(s.home, run) == w';
    var before :| Happens(start, before, s);
    var events;
    events, s' := HomeRun(s, run);
    HappensThen(start, before, s, events, s');
  }

  /** From every reached state in which the names are equal there is a way, without a change of name,
      to both ends joined with nothing lost. */
  lemma ReconnectContinues(start: State, s: State) returns (s': State)
    requires Ends(start, s) && s.clientName == s.serverName
    ensures Ends(start, s') && s'.clientName == s.clientName && s'.serverName == s.serverName && Joined(s'.home)
    ensures s'.home.client.pushed == s.home.client.pushed && s'.home.server.pushed == s.home.server.pushed
  {
    hide Reachable, Happens, Inv, Joined, Reaches;
    ReachableOK(s.home);
    var w' := Rejoin(s.home);
    s' := HomeReaches(start, s, w');
  }

  // ----- What a reset forgets

  /** What the server has pushed to this client under its present name. */
  function ServerHistory(s: State): seq<Msg> {
    if s.serverName == s.clientName then s.home.server.pushed
    else if Visiting(s) then s.visit.value.w.server.pushed
    else []
  }

  lemma HistoryGrows(w: World, a: Action)
    requires Enabled(w, a)
    ensures w.server.pushed <= Step(w, a).server.pushed
  {
    hide Image, Images, Acks, Parsed, Queue.CoversAll, Queue.AckAll, Items, AppItems, TotalBlocks, Accepts;
  }

  /** A server that keeps its name forgets pushed messages exactly when it handles another login
      that carries the old name: then everything pushed since the previous such login is gone. */
  lemma ForgottenByReset(s: State, e: Event)
    requires Reached(s) && Possible(s, e) && Tolerable(s, e) && !e.Rename?
    requires e.FinishReset? ==> Visiting(s)
    ensures ServerHistory(s) <= ServerHistory(Next(s, e)) <==> !(e.ResetLogin? && ServerHistory(s) != [])
  {
    hide Reached, Reachable, Enabled, Step, Unborn, Virgin, FilesOK;
    ReachedOK(s);
    match e
    case Home(a) => HistoryGrows(s.home, a);
    case Away(a) => HistoryGrows(s.visit.value.w, a);
    case _ =>
  }

  /** A freshly reset server pushes a message and loses its connection. */
  lemma PushAndClose(cap: nat, m: Msg)
    requires 8 * cap < M32 && ValidMsg(m) && m.msgType == 1 && m.stamp == 0 && MsgBlocks(m) <= cap
    ensures var w := HandleLoginStep(Asked(true, cap), 0, true);
      var push := Push(Server, 1, m.payload, m.pad);
      && Enabled(w, push) && Enabled(Step(w, push), Close(Server))
      && var w' := Step(Step(w, push), Close(Server));
      && w'.server.pushed == [m] && !w'.Open(Server)
  {
    hide Reachable, ValidMsg;
    ResetLoginIsAccepted(true, cap, true);
    var w := HandleLoginStep(Asked(true, cap), 0, true);
    var push := Push(Server, 1, m.payload, m.pad);
    ReachableWired(w);
    assert TotalBlocks(w.server.q.msgs) == 0;
    StepReachable(w, push);
    ReachableWired(Step(w, push));
  }

  lemma InitOK(le: bool, cap: nat, serverName: string)
    requires 8 * cap < M32 && serverName != ""
    ensures Beginning(Init(le, cap, serverName)) && Possible(Init(le, cap, serverName), Home(SendLogin))
    ensures Ends(Init(le, cap, serverName), Init(le, cap, serverName))
  {
    hide Reachable;
    StartReachable(le, cap);
    CanAsk(Protocol.Start(le, cap));
    EndsHere(Init(le, cap, serverName));
  }

  /** The first login: the server has opened the connection, the response is lost. */
  lemma LostResponse(cap: nat, serverName: string) returns (s: State)
    requires 8 * cap < M32 && serverName != ""
    ensures Ends(Init(true, cap, serverName), s)
    ensures s == State("", serverName, Asked(true, cap),
      Some(Visit(serverName, 0, true, HandleLoginStep(Asked(true, cap), 0, true))), map[], {0}, 0)
  {
    hide Reachable, Happens, Unborn, HandleLoginStep, OK, Enabled;
    var start := Init(true, cap, serverName);
    InitOK(true, cap, serverName);
    Then(start, start, Home(SendLogin));
    s := Next(start, Home(SendLogin));
    Then(start, s, ResetLogin(0, true));
    s := Next(s, ResetLogin(0, true));
    assert {} + {0} == {0};
  }

  /** It does happen: the response is lost, the server pushes, the client tries again. */
  lemma PushedMessageForgotten(cap: nat, serverName: string, m: Msg) returns (s: State)
    requires 8 * cap < M32 && serverName != ""
    requires ValidMsg(m) && m.msgType == 1 && m.stamp == 0 && MsgBlocks(m) <= cap
    ensures Reached(s) && ServerHistory(s) == [m]
    ensures Possible(s, ResetLogin(1, true)) && ServerHistory(Next(s, ResetLogin(1, true))) == []
  {
    hide Reachable, Reached, Happens, Unborn, ValidMsg, HandleLoginStep, PushStep, OK;
    var start := Init(true, cap, serverName);
    PushAndClose(cap, m);
    s := LostResponse(cap, serverName);
    var push := Away(Push(Server, 1, m.payload, m.pad));
    Then(start, s, push);
    s := Next(s, push);
    Then(start, s, Away(Close(Server)));
    s := Next(s, Away(Close(Server)));
    Then(start, s, Home(AbandonLogin));
    s := Next(s, Home(AbandonLogin));
    Then(start, s, Home(SendLogin));
    s := Next(s, Home(SendLogin));
    EndsReached(start, s);
    FreshHistory(cap);
  }

  lemma FreshHistory(cap: nat)
    requires 8 * cap < M32
    ensures HandleLoginStep(Asked(true, cap), 0, true).server.pushed == []
  {
  }

  // ----- Late resets

  /** A server that starts over once more behind a client's back: the client's next request is accepted
      if and only if the client has popped nothing and nothing of it was acknowledged; but whatever
      the server had pushed is gone, and the two ends agree if and only if there was nothing to lose. */
  lemma LateResetVerdict(w: World, responded: bool)
    requires Reachable(w) && w.waiting.Some? && w.logins != [] && w.logins[0] == Login(0, 0, 0)
    requires |w.client.popped| < HALF32 && |w.client.pushed| < HALF32
    ensures w.waiting.value < |w.logins|
    ensures var w' := StartedOver(w, responded);
      && w'.server == w.server.(q := EMPTY_QUEUE)
      && (Accepts(w'.server.q, w.logins[w.waiting.value]) <==> w.client.popped == [] && w.client.q.base == 0)
      && (Agrees(w') <==> Blank(w))
  {
    hide SessionsOK, ConnOK, PushedOK, TotalBlocks, Contents, Reachable, Agrees, HandleLoginStep;
    ReachableOK(w);
    CheckAckExact(|w.client.popped|, 0, 0);
    CheckAckExact(0, w.client.q.base, |w.client.pushed|);
    ForgottenDisagrees(w, responded);
    if Blank(w) {
      BlankStartsOver(w, responded);
      ReachableAgrees(StartedOver(w, responded));
    }
  }

  /** The first request of a client is abandoned, the second joins both ends: the first may still come. */
  lemma JoinedAfterAbandoned(start: State, cap: nat, serverName: string) returns (s: State)
    requires 8 * cap < M32 && serverName != "" && start == Init(true, cap, serverName)
    ensures Beginning(start) && Ends(start, s) && s.overtaken == 1
    ensures s.clientName == s.serverName == serverName && Joined(s.home) && Restarted(s.home)
    ensures s.home.server.pushed == [] && s.home.cap == cap
  {
    hide Reachable, Happens, Unborn, OK, Enabled, Beginning, Joined, Restarted;
    InitOK(true, cap, serverName);
    Then(start, start, Home(SendLogin));
    s := Next(start, Home(SendLogin));
    CanGiveUp(s);
    Then(start, s, Home(AbandonLogin));
    s := Next(s, Home(AbandonLogin));
    assert Unanswered(1, {}) == 1;
    s := ReconnectResets(start, s);
  }

  lemma CanGiveUp(s: State)
    requires OK(s) && s.home.waiting.Some?
    ensures Enabled(s.home, AbandonLogin)
  {
    hide Reachable;
    ReachableWired(s.home);
  }

  /** A message small enough for the queue, pushed by a server that has popped nothing. */
  predicate FirstMessage(m: Msg, cap: nat) {
    ValidMsg(m) && m.msgType == 1 && m.stamp == 0 && MsgBlocks(m) <= cap
  }

  function PushOf(x: Side, m: Msg): Action {
    Push(x, m.msgType, m.payload, m.pad)
  }

  lemma FirstPush(w: World, m: Msg)
    requires Reachable(w) && Joined(w) && Restarted(w) && w.server.pushed == [] && FirstMessage(m, w.cap)
    ensures Enabled(w, PushOf(Server, m))
    ensures var w' := Step(w, PushOf(Server, m));
      && w'.server.pushed == [m] && w'.server.popped == [] && w'.client == w.client && w'.cap == w.cap
      && w'.client.popped == [] && w'.client.pushed == []
  {
    hide Reachable, ValidMsg;
    ReachableWired(w);
    assert TotalBlocks(w.server.q.msgs) == 0;
  }

  /** ... is pushed. */
  lemma PushFirst(start: State, s: State, m: Msg) returns (s': State)
    requires Ends(start, s) && s.clientName == s.serverName
    requires Joined(s.home) && Restarted(s.home) && s.home.server.pushed == [] && FirstMessage(m, s.home.cap)
    ensures Ends(start, s') && s'.clientName == s'.serverName == s.serverName
    ensures s'.overtaken == s.overtaken && s'.files == s.files && s'.home.cap == s.home.cap
    ensures s'.home.server.pushed == [m] && s'.home.server.popped == []
    ensures s'.home.client.popped == [] && s'.home.client.pushed == []
  {
    hide Reachable, Happens, Unborn, Enabled, Joined, Restarted, Virgin, FilesOK, FirstMessage, Step, VisitOK;
    FirstPush(s.home, m);
    Then(start, s, Home(PushOf(Server, m)));
    s' := Next(s, Home(PushOf(Server, m)));
  }

  /** ... and delivered. */
  lemma DeliverFirst(start: State, s: State, m: Msg) returns (s': State)
    requires Ends(start, s) && s.clientName == s.serverName
    requires s.home.server.pushed == [m] && s.home.client.pushed == [] && m.stamp == 0
    ensures Ends(start, s') && s'.clientName == s'.serverName == s.serverName
    ensures s'.overtaken == s.overtaken && s'.files == s.files && s'.home.cap == s.home.cap
    ensures s'.home.client.popped == [ContentOf(m)] && s'.home.client.q == Queue([], 0, 0, 1)
  {
    hide Reachable, Happens, Unborn, Enabled, Reaches, Virgin, FilesOK, VisitOK, Contents;
    assert Young(s.home, Client) && Young(s.home, Server);
    var w' := OneReconnectDeliversAll(s.home);
    ReachesConfig(s.home, w');
    s' := HomeReaches(start, s, w');
    assert Contents([m]) == [ContentOf(m)];
    IdleQueue(s'.home);
  }

  lemma IdleQueue(w: World)
    requires Reachable(w) && w.client.pushed == []
    ensures w.client.q == Queue([], 0, 0, |w.client.popped|)
  {
    hide Reachable, SessionsOK, ConnOK, LoginsOK, Delivered;
    ReachableOK(w);
  }

  /** Both ends lose their connections. */
  lemma CrashBothEnds(start: State, s: State) returns (s': State)
    requires Ends(start, s) && s.clientName == s.serverName
    ensures Ends(start, s') && s'.clientName == s'.serverName == s.serverName && s'.overtaken == s.overtaken
    ensures s'.home.clientConn == NoConn && s'.home.serverConn == NoConn && s'.home.waiting.None?
    ensures s'.home.client == s.home.client && s'.home.server == s.home.server
  {
    hide Reachable, Happens, Unborn, Enabled, Virgin, FilesOK, VisitOK;
    CrashReachable(s.home, Client);
    Then(start, s, Home(Crash(Client)));
    s' := Next(s, Home(Crash(Client)));
    CrashReachable(s'.home, Server);
    Then(start, s', Home(Crash(Server)));
    s' := Next(s', Home(Crash(Server)));
  }

  /** The client asks again after the server has started over late. */
  lemma AskAfterLateReset(s: State)
    requires OK(s) && s.clientName == s.serverName && s.overtaken > 0
    requires s.home.clientConn == NoConn && s.home.serverConn == NoConn && s.home.waiting.None?
    ensures Possible(s, LateReset(None, false)) && Possible(Next(s, LateReset(None, false)), Home(SendLogin))
    ensures var s' := Next(Next(s, LateReset(None, false)), Home(SendLogin));
      && s'.home.server == s.home.server.(q := EMPTY_QUEUE) && s'.home.client == s.home.client
      && s'.home.waiting.Some? && s'.home.waiting.value < |s'.home.logins|
      && var q := s.home.client.q; s'.home.logins[s'.home.waiting.value] == Login(q.ack, q.base, q.End())
  {
    hide Reachable, Unborn, Virgin, FilesOK;
  }

  /** It does happen: a late reset, and the client is refused for good ... */
  lemma LateResetRefuses(cap: nat, serverName: string, m: Msg) returns (s: State)
    requires 8 * cap < M32 && serverName != "" && FirstMessage(m, cap)
    ensures Reached(s) && s.home.client.popped == [ContentOf(m)]
    ensures Possible(s, LateReset(None, false)) && Possible(Next(s, LateReset(None, false)), Home(SendLogin))
    ensures var w := Next(Next(s, LateReset(None, false)), Home(SendLogin)).home;
      && w.waiting.Some? && w.waiting.value < |w.logins|
      && !Accepts(w.server.q, w.logins[w.waiting.value])
  {
    hide Reachable, Reached, Happens, OK, Joined, Restarted, Beginning, FirstMessage, Possible, Next;
    var start := Init(true, cap, serverName);
    s := JoinedAfterAbandoned(start, cap, serverName);
    s := PushFirst(start, s, m);
    FirstStamp(m, cap);
    s := DeliverFirst(start, s, m);
    s := CrashBothEnds(start, s);
    EndsReached(start, s);
    AskAfterLateReset(s);
    CheckAckExact(1, 0, 0);
  }

  /** ... or accepted, and a message of the server is gone. */
  lemma LateResetForgets(cap: nat, serverName: string, m: Msg) returns (s: State)
    requires 8 * cap < M32 && serverName != "" && FirstMessage(m, cap)
    ensures Reached(s) && s.home.server.pushed == [m] && s.home.client.popped == []
    ensures Possible(s, LateReset(None, false)) && Possible(Next(s, LateReset(None, false)), Home(SendLogin))
    ensures var w := Next(Next(s, LateReset(None, false)), Home(SendLogin)).home;
      && w.server.pushed == [m] && w.client.popped == [] && w.server.q.msgs == []
      && w.waiting.Some? && w.waiting.value < |w.logins|
      && Accepts(w.server.q, w.logins[w.waiting.value])
  {
    hide Reachable, Reached, Happens, OK, Joined, Restarted, Beginning, FirstMessage, Possible, Next;
    var start := Init(true, cap, serverName);
    s := JoinedAfterAbandoned(start, cap, serverName);
    s := PushFirst(start, s, m);
    s := CrashBothEnds(start, s);
    EndsReached(start, s);
    EndsOK(start, s);
    IdleQueue(s.home);
    AskAfterLateReset(s);
  }

  lemma FirstStamp(m: Msg, cap: nat)
    requires FirstMessage(m, cap)
    ensures m.stamp == 0
  {
  }

  lemma EndsOK(start: State, s: State)
    requires Ends(start, s)
    ensures OK(s) && Reachable(s.home)
  {
    hide Reachable;
  }

  // ----- Files from earlier days

  /** Should the client, after it has stored the new name, find in the file of that name a queue `q`
      from earlier days instead of an empty one, its login may be accepted by the freshly reset
      server, which then drops the first `q.ack` of its messages undelivered. */
  lemma StaleFile(q: Queue, server: Queue)
    requires server.base == 0 && server.ack == 0 && |server.msgs| < HALF32
    requires q.ack < HALF32 && q.End() < HALF32
    ensures var l := Login(q.ack, q.base, q.End());
      && (Accepts(server, l) <==> q.base == 0 && q.ack <= |server.msgs|)
      && (Accepts(server, l) ==>
            server.CanAck(Wrap(q.ack)) && server.LoginAck(Wrap(q.ack)).msgs == server.msgs[q.ack..])
  {
    hide TotalBlocks;
    CheckAckExact(q.ack, 0, |server.msgs|);
    CheckAckExact(0, q.base, q.End());
    if q.ack <= |server.msgs| {
      AckIsExact(server, q.ack);
    }
  }

  /** The client has used `serverName`, then another name, and has now asked a server of the old name
      again, which has started over and lost its connection: a file is left over. */
  lemma LeftOver(start: State, cap: nat, serverName: string, other: string, m: Msg) returns (s: State)
    requires 8 * cap < M32 && FirstMessage(m, cap)
    requires serverName != "" && other != "" && serverName != other && start == Init(true, cap, serverName)
    ensures Beginning(start) && Ends(start, s)
    ensures s.clientName == other && s.serverName == serverName && FileOf(s.files, serverName) == Queue([], 0, 0, 1)
    ensures Possible(s, FinishReset(false)) && s.visit.value.name == serverName
    ensures s.home.cap == cap && s.visit.value.w == CrashStep(HandleLoginStep(Asked(s.home.le, cap), 0, true), Server)
  {
    hide Reachable, Reached, Happens, OK, Joined, Restarted, Beginning, FirstMessage, Ends, Possible, Next;
    s := JoinedAfterAbandoned(start, cap, serverName);
    s := PushFirst(start, s, m);
    FirstStamp(m, cap);
    s := DeliverFirst(start, s, m);
    s := TakeName(start, s, other);
    s := ReconnectResets(start, s);
    s := TakeName(start, s, serverName);
    s := AskAndCrash(start, s);
  }

  lemma TakeName(start: State, s: State, name: string) returns (s': State)
    requires Ends(start, s) && name != ""
    ensures Ends(start, s') && s'.clientName == s.clientName && s'.serverName == name && s'.files == s.files
    ensures s'.home.client == s.home.client && s'.home.cap == s.home.cap && s'.home.le == s.home.le
  {
    hide Reachable, Happens, OK;
    Then(start, s, Rename(name));
    s' := Next(s, Rename(name));
  }

  /** The client asks, the server starts over, answers, and loses the connection. */
  lemma AskAndCrash(start: State, s: State) returns (s': State)
    requires Ends(start, s) && s.clientName != s.serverName
    ensures Ends(start, s') && s'.clientName == s.clientName && s'.serverName == s.serverName && s'.files == s.files
    ensures s'.home.cap == s.home.cap && Possible(s', FinishReset(false)) && s'.visit.value.name == s.serverName
    ensures s'.visit.value.w == CrashStep(HandleLoginStep(Asked(s'.home.le, s.home.cap), 0, true), Server)
  {
    hide Reachable, Happens, OK, Enabled, HandleLoginStep;
    s' := AskAgain(start, s);
    var i := |s.home.logins|;
    Then(start, s', ResetLogin(i, true));
    s' := Next(s', ResetLogin(i, true));
    EndsVisit(start, s');
    Then(start, s', Away(Crash(Server)));
    s' := Next(s', Away(Crash(Server)));
    assert s'.visit.value.w.sessions != [] by { EndsVisit(start, s'); }
  }

  lemma EndsVisit(start: State, s: State)
    requires Ends(start, s) && s.visit.Some?
    ensures Enabled(s.visit.value.w, Crash(Server))
    ensures s.visit.value.responded ==> s.visit.value.w.sessions != []
  {
    hide Reachable;
    ReachableWired(s.visit.value.w);
  }

  /** The new pair of ends as the left-over file makes it: both down, the server with nothing pushed. */
  function WithStaleFile(le: bool, cap: nat): World {
    var w := CrashStep(HandleLoginStep(Asked(le, cap), 0, true), Server);
    w.(client := Endpoint(Queue([], 0, 0, 1), [], []), waiting := None)
  }

  /** What follows: the server pushes, the client asks with the numbers of the old file, the server
      accepts and drops its message, which nobody has popped. */
  lemma DropsUndelivered(le: bool, cap: nat, m: Msg)
    requires 8 * cap < M32 && FirstMessage(m, cap)
    ensures Enabled(WithStaleFile(le, cap), PushOf(Server, m))
    ensures Enabled(Step(WithStaleFile(le, cap), PushOf(Server, m)), SendLogin)
    ensures var w2 := Step(Step(WithStaleFile(le, cap), PushOf(Server, m)), SendLogin);
      && w2.waiting == Some(1) && |w2.logins| == 2 && Enabled(w2, HandleLogin(1, true))
      && Accepts(w2.server.q, w2.logins[1])
      && var w3 := Step(w2, HandleLogin(1, true));
      && w3.server.pushed == [m] && w3.client.popped == [] && w3.server.q.msgs == []
  {
    hide ValidMsg;
    var w := WithStaleFile(le, cap);
    assert TotalBlocks(w.server.q.msgs) == 0;
    var w1 := Step(w, PushOf(Server, m));
    assert w1.server.q == Queue([m], 0, 0, 0);
    var w2 := Step(w1, SendLogin);
    StaleFile(Queue([], 0, 0, 1), w1.server.q);
    assert [m][1..] == [];
  }

  /** It does happen: a file left over from an earlier time with the same server cannot be opened at
      once, and a message is lost. */
  lemma StaleFileLoses(cap: nat, serverName: string, other: string, m: Msg) returns (s: State)
    requires 8 * cap < M32 && FirstMessage(m, cap)
    requires serverName != "" && other != "" && serverName != other
    ensures Reached(s) && Possible(s, FinishReset(false))
    ensures Possible(Next(s, FinishReset(false)), Home(PushOf(Server, m)))
    ensures Possible(Next(Next(s, FinishReset(false)), Home(PushOf(Server, m))), Home(SendLogin))
    ensures var s3 := Next(Next(Next(s, FinishReset(false)), Home(PushOf(Server, m))), Home(SendLogin));
      && Possible(s3, Home(HandleLogin(1, true)))
      && var s4 := Next(s3, Home(HandleLogin(1, true)));
      && s4.home.server.pushed == [m] && s4.home.client.popped == [] && s4.home.server.q.msgs == []
  {
    hide Reachable, Reached, Happens, OK, Beginning, FirstMessage, Enabled, Step, Ends;
    var start := Init(true, cap, serverName);
    s := LeftOver(start, cap, serverName, other, m);
    EndsReached(start, s);
    assert Next(s, FinishReset(false)).home == WithStaleFile(s.home.le, cap);
    DropsUndelivered(s.home.le, cap, m);
  }
}
