/** Logins across a change of the server's name.

    The client stores the name of the server it last logged in to, and both ends keep one queue file
    for each name of the other.  A login that finds the stored name different from the server's own
    makes both ends start over: the server when it handles the request, the client when the
    response arrives.  `home` is the protocol between the client and the server of the stored name;
    a `Visit` is what a server of another name has made of such a login, of which the client may not
    have heard yet.
 */
module ServerName {
  import opened Words
  import opened Wire
  import opened SendQueue
  import opened Flows
  import opened Protocol
  import opened ProtocolSteps
  import opened Recovery
  import opened Reconnect
  import opened Refinement

  /** `attempt` is the request that made the server start over, `responded` whether it was answered. */
  datatype Visit = Visit(name: string, attempt: nat, responded: bool, w: World)

  /** `files` are the client's queue files of names it does not use at present; `answered` are the
      requests of `home` some server has handled; `overtaken` is the number of requests that carry
      an earlier name and that no server has handled yet. */
  datatype State = State(
    clientName: string, serverName: string, home: World, visit: Option<Visit>,
    files: map<string, Queue>, answered: set<nat>, overtaken: nat)

  datatype Event =
    | Home(a: Action)
    | Away(a: Action)
    | ResetLogin(i: nat, responded: bool)
    | LateReset(own: Option<nat>, responded: bool)
    | FinishReset(fileOpens: bool)
    | Rename(name: string)

  /** No name is stored before the first login. */
  function Init(le: bool, cap: nat, serverName: string): State {
    State("", serverName, Protocol.Start(le, cap), None, map[], {}, 0)
  }

  /** The visit at which the server is now, if any. */
  predicate Visiting(s: State) {
    s.visit.Some? && s.visit.value.name == s.serverName && s.serverName != s.clientName
  }

  /** What the server of the present name takes part in, if anything. */
  predicate AtWork(s: State) {
    Visiting(s) || (s.serverName == s.clientName && s.clientName != "")
  }

  function Current(s: State): World
    requires AtWork(s)
  {
    if s.serverName == s.clientName then s.home else s.visit.value.w
  }

  /** The file of the queue with the peer of the given name; a file that does not exist is created
      empty. */
  function FileOf(files: map<string, Queue>, name: string): Queue {
    if name in files then files[name] else EMPTY_QUEUE
  }

  /** What can happen.  The server serves one name at a time and handles each request at most once.
      A request that makes it start over is `ResetLogin` if no later one has been handled, and
      `LateReset` if one has: a request of the same name, or one from before the client's last
      change of name. */
  predicate Possible(s: State, e: Event) {
    match e
    case Home(a) =>
      && Enabled(s.home, a)
      && (Actor(a).Server? ==> s.serverName == s.clientName)
      && (a.Push? && a.x.Client? ==> s.clientName != "")
    case Away(a) =>
      Visiting(s) && Actor(a).Server? && !a.HandleLogin? && Enabled(s.visit.value.w, a)
    case ResetLogin(i, _) =>
      && s.serverName != s.clientName && s.serverName != ""
      && i < |s.home.logins| && i !in s.answered && (s.visit.Some? ==> s.visit.value.attempt < i)
      && (Visiting(s) ==> !s.visit.value.w.Open(Server))
    case LateReset(own, _) =>
      && AtWork(s) && !Current(s).Open(Server) && Current(s).logins != []
      && if own.Some? then Visiting(s) && own.value < s.visit.value.attempt && own.value !in s.answered
         else s.overtaken > 0
    case FinishReset(_) =>
      s.visit.Some? && s.visit.value.responded && s.visit.value.w.sessions != []
      && s.home.waiting == Some(s.visit.value.attempt)
    case Rename(name) => name != ""
  }

  /** A new pair of queues whose client has asked to log in. */
  function Asked(le: bool, cap: nat): World {
    Protocol.Start(le, cap).(logins := [Login(0, 0, 0)], waiting := Some(0))
  }

  /** The server's queue file has been reset; the history remembers what was in it. */
  function Forget(w: World): World {
    w.Set(Server, w.server.(q := EMPTY_QUEUE), NoConn)
  }

  /** The server starts over and handles the request as one from an empty queue. */
  function StartedOver(w: World, responded: bool): World
    requires w.logins != []
  {
    HandleLoginStep(Forget(w), 0, responded)
  }

  /** The requests before `n` that no server has handled. */
  function Unanswered(n: nat, answered: set<nat>): nat {
    if n == 0 then 0 else Unanswered(n - 1, answered) + if n - 1 in answered then 0 else 1
  }

  /** The client's files once it has left the stored name. */
  function Filed(s: State): map<string, Queue> {
    if s.clientName == "" then s.files else s.files[s.clientName := s.home.client.q]
  }

  function Next(s: State, e: Event): State
    requires Possible(s, e)
  {
    match e
    case Home(a) =>
      s.(home := Step(s.home, a), answered := s.answered + if a.HandleLogin? then {a.i} else {})
    case Away(a) => s.(visit := Some(s.visit.value.(w := Step(s.visit.value.w, a))))
    case ResetLogin(i, responded) =>
      s.(visit := Some(Visit(s.serverName, i, responded, HandleLoginStep(Asked(s.home.le, s.home.cap), 0, responded))),
         answered := s.answered + {i})
    case LateReset(own, responded) =>
      var w := StartedOver(Current(s), responded);
      var s' := if own.Some? then s.(answered := s.answered + {own.value}) else s.(overtaken := s.overtaken - 1);
      if s.serverName == s.clientName then s'.(home := w) else s'.(visit := Some(s.visit.value.(w := w)))
    case FinishReset(fileOpens) =>
      var v := s.visit.value;
      var home := if fileOpens then FinishLoginStep(v.w, 0)
                  else v.w.(client := Endpoint(FileOf(s.files, v.name), [], []), waiting := None);
      State(v.name, s.serverName, home, None, Filed(s), {0}, s.overtaken + Unanswered(|s.home.logins|, s.answered))
    case Rename(name) =>
      s.(serverName := name, home := CrashStep(s.home, Server),
         visit := if s.visit.Some? then Some(s.visit.value.(w := CrashStep(s.visit.value.w, Server))) else None)
  }

  // ----- Events that break the agreement

  /** Nothing has been exchanged, and the server has nothing to lose. */
  predicate Blank(w: World) {
    w.client.popped == [] && w.server.pushed == [] && w.server.popped == []
  }

  /** A late reset does no harm if nothing has been exchanged since the last one, and the file of a
      new name that cannot be opened at once does none if it is empty. */
  predicate Tolerable(s: State, e: Event)
    requires Possible(s, e)
  {
    && (e.LateReset? ==> Blank(Current(s)))
    && (e == FinishReset(false) ==> FileOf(s.files, s.visit.value.name) == EMPTY_QUEUE)
  }

  /** Delivery is exactly-once and in order up to now in both directions, everything undelivered is in
      its sender's queue, and the counters that decide the next login are right. */
  ghost predicate Agrees(w: World) {
    && Intact(w.client, w.server) && Intact(w.server, w.client)
    && w.client.q.ack == |w.client.popped| && w.client.q.End() == |w.client.pushed|
    && w.server.q.ack == |w.server.popped| && w.server.q.End() == |w.server.pushed|
  }

  ghost predicate InAgreement(s: State) {
    Agrees(s.home) && (s.visit.Some? ==> Agrees(s.visit.value.w))
  }

  lemma ReachableAgrees(w: World)
    requires Reachable(w)
    ensures Agrees(w)
  {
    hide Reachable, Intact, SessionsOK, ConnOK, LoginsOK, PushedOK, TotalBlocks, Delivered;
    ExactlyOnceInOrder(w);
    ReachableOK(w);
    QueueEnd(w.cap, w.client);
    QueueEnd(w.cap, w.server);
  }

  /** After a reset the two ends agree if and only if there was nothing to forget. */
  lemma ForgottenDisagrees(w: World, responded: bool)
    requires w.logins != [] && w.logins[0] == Login(0, 0, 0)
    ensures StartedOver(w, responded).server == w.server.(q := EMPTY_QUEUE)
    ensures StartedOver(w, responded).client == w.client
    ensures Agrees(StartedOver(w, responded)) ==> Blank(w)
  {
  }

  lemma StaleDisagrees(w: World, q: Queue)
    requires q.msgs == [] ==> q.sent == 0
    ensures Agrees(w.(client := Endpoint(q, [], []), waiting := None)) ==> q == EMPTY_QUEUE
  {
  }

  // ----- The invariant

  /** The client of `w` has not begun: its file is empty, and it has only asked. */
  ghost predicate Unborn(w: World) {
    && w.client == Endpoint(EMPTY_QUEUE, [], []) && w.clientConn == NoConn
    && w.logins == [Login(0, 0, 0)] && w.waiting == Some(0)
    && forall i :: 0 <= i < |w.sessions| ==> w.sessions[i].login == 0
  }

  /** The world of a client that has never logged in. */
  ghost predicate Virgin(w: World) {
    && w.client == Endpoint(EMPTY_QUEUE, [], []) && w.clientConn == NoConn && w.serverConn == NoConn
    && w.sessions == []
  }

  ghost predicate VisitOK(s: State) {
    s.visit.Some? ==>
      var v := s.visit.value;
      && v.name != "" && v.attempt in s.answered
      && Reachable(v.w) && Unborn(v.w) && (v.responded ==> v.w.sessions != [])
      && (!Visiting(s) ==> v.w.serverConn == NoConn)
  }

  ghost predicate RequestsOK(s: State) {
    && (forall i :: i in s.answered ==> i < |s.home.logins|)
    && (s.home.waiting.Some? ==> s.home.waiting.value == |s.home.logins| - 1)
    && (s.clientName != "" ==> s.home.logins != [] && s.home.logins[0] == Login(0, 0, 0))
  }

  ghost predicate FilesOK(files: map<string, Queue>) {
    forall name :: name in files && files[name].msgs == [] ==> files[name].sent == 0
  }

  ghost predicate OK(s: State) {
    && Reachable(s.home) && s.serverName != ""
    && (s.clientName == "" ==> Virgin(s.home))
    && (s.serverName != s.clientName ==> s.home.serverConn == NoConn)
    && VisitOK(s) && RequestsOK(s) && FilesOK(s.files)
  }

  lemma AskedReachable(le: bool, cap: nat)
    requires 8 * cap < M32
    ensures Reachable(Asked(le, cap)) && Unborn(Asked(le, cap))
  {
    hide Reachable;
    var w := Protocol.Start(le, cap);
    StartReachable(le, cap);
    assert Enabled(w, SendLogin);
    StepReachable(w, SendLogin);
    assert Step(w, SendLogin) == Asked(le, cap);
  }

  /** A server that has just been reset accepts the login that made it do so. */
  lemma ResetLoginIsAccepted(le: bool, cap: nat, responded: bool)
    requires 8 * cap < M32
    ensures var w := Asked(le, cap);
      && Enabled(w, HandleLogin(0, responded)) && Accepts(w.server.q, w.logins[0])
      && var w' := HandleLoginStep(w, 0, responded);
      && Reachable(w') && Unborn(w')
      && if responded then w'.serverConn == Conn(0, true, 0, 0) && |w'.sessions| == 1 else w' == w
  {
    hide Reachable;
    AskedReachable(le, cap);
    var w := Asked(le, cap);
    StepReachable(w, HandleLogin(0, responded));
  }

  lemma CapBound(w: World)
    requires Reachable(w)
    ensures 8 * w.cap < M32
  {
    hide Reachable;
    ReachableOK(w);
  }

  lemma CrashReachable(w: World, x: Side)
    requires Reachable(w)
    ensures Enabled(w, Crash(x)) && Reachable(CrashStep(w, x))
  {
    hide Reachable;
    ReachableWired(w);
    StepReachable(w, Crash(x));
  }

  lemma AwayUnborn(w: World, a: Action)
    requires Unborn(w) && Enabled(w, a) && Actor(a).Server? && !a.HandleLogin?
    ensures Unborn(Step(w, a)) && |Step(w, a).sessions| == |w.sessions|
  {
    hide Image, Images, Acks, Parsed, Queue.CoversAll, Queue.AckAll, Items, AppItems, TotalBlocks;
  }

  /** A reset session can be joined as soon as its response is out. */
  lemma CanJoin(w: World)
    requires Reachable(w) && Unborn(w) && w.sessions != []
    ensures Enabled(w, FinishLogin(0))
  {
    hide Reachable;
    ReachableWired(w);
  }

  lemma CanAbandon(w: World)
    requires Reachable(w) && Unborn(w)
    ensures Enabled(w, AbandonLogin)
  {
    hide Reachable;
    ReachableWired(w);
  }

  /** The requests of a world only grow, and the client waits for the last one or none. */
  lemma HomeRequests(w: World, a: Action)
    requires Enabled(w, a) && (w.waiting.Some? ==> w.waiting.value == |w.logins| - 1)
    ensures w.logins <= Step(w, a).logins
    ensures Step(w, a).waiting.Some? ==> Step(w, a).waiting.value == |Step(w, a).logins| - 1
    ensures a.HandleLogin? ==> a.i < |w.logins|
  {
    hide Wired, Sendable, Free, MayPop, ValidMsg, IsApp, SendFlow, BeatFlow, PushEndpoint, PopEndpoint, ContentOfItem,
      Acks, Parsed, Queue.CoversAll, Queue.AckAll, Items, AppItems, TotalBlocks, Accepts;
  }

  lemma HomeKeepsServer(w: World, a: Action)
    requires Enabled(w, a) && Actor(a).Client?
    ensures Step(w, a).serverConn == w.serverConn
  {
    hide Image, Images, Acks, Parsed, Queue.CoversAll, Queue.AckAll, Items, AppItems, TotalBlocks, Accepts;
  }

  lemma HomeVirgin(w: World, a: Action)
    requires Virgin(w) && Enabled(w, a) && Actor(a).Client? && !a.Push?
    ensures Virgin(Step(w, a))
  {
  }

  /** Starting over with nothing to forget is, for the machine, a crash of the server and the handling
      of an old request. */
  lemma BlankStartsOver(w: World, responded: bool)
    requires Reachable(w) && Blank(w) && w.logins != [] && w.logins[0] == Login(0, 0, 0)
    ensures Reachable(StartedOver(w, responded))
    ensures StartedOver(w, responded).logins == w.logins && StartedOver(w, responded).waiting == w.waiting
    ensures w.sessions <= StartedOver(w, responded).sessions
    ensures Unborn(w) ==> Unborn(StartedOver(w, responded))
  {
    hide Reachable, Accepts;
    EmptiedServer(w);
    CrashReachable(w, Server);
    assert Forget(w) == CrashStep(w, Server);
    ReachableWired(Forget(w));
    StepReachable(Forget(w), HandleLogin(0, responded));
  }

  lemma EmptiedServer(w: World)
    requires Reachable(w) && w.client.popped == [] && w.server.pushed == [] && w.server.popped == []
    ensures w.server.q == EMPTY_QUEUE
  {
    hide Reachable, SessionsOK, ConnOK, LoginsOK, Delivered;
    ReachableOK(w);
  }

  lemma NextKeepsOK(s: State, e: Event)
    requires OK(s) && Possible(s, e) && Tolerable(s, e)
    ensures OK(Next(s, e))
  {
    hide OK, Possible, Next, Tolerable;
    match e
    case Home(a) => HomeKeepsOK(s, a);
    case Away(a) => AwayKeepsOK(s, a);
    case ResetLogin(i, responded) => ResetKeepsOK(s, i, responded);
    case LateReset(own, responded) => LateKeepsOK(s, own, responded);
    case FinishReset(fileOpens) => FinishKeepsOK(s, fileOpens);
    case Rename(name) => RenameKeepsOK(s, name);
  }

  lemma HomeKeepsOK(s: State, a: Action)
    requires OK(s) && Possible(s, Home(a))
    ensures OK(Next(s, Home(a)))
  {
    hide Reachable, Enabled, Step, Unborn, Virgin, FilesOK;
    StepReachable(s.home, a);
    HomeRequests(s.home, a);
    if Actor(a).Client? {
      HomeKeepsServer(s.home, a);
      if s.clientName == "" {
        HomeVirgin(s.home, a);
      }
    }
  }

  lemma AwayKeepsOK(s: State, a: Action)
    requires OK(s) && Possible(s, Away(a))
    ensures OK(Next(s, Away(a)))
  {
    hide Reachable, Enabled, Step, Unborn, Virgin, FilesOK;
    StepReachable(s.visit.value.w, a);
    AwayUnborn(s.visit.value.w, a);
  }

  lemma ResetKeepsOK(s: State, i: nat, responded: bool)
    requires OK(s) && Possible(s, ResetLogin(i, responded))
    ensures OK(Next(s, ResetLogin(i, responded)))
  {
    hide Reachable, Unborn, Virgin, FilesOK, HandleLoginStep;
    CapBound(s.home);
    ResetLoginIsAccepted(s.home.le, s.home.cap, responded);
  }

  lemma LateKeepsOK(s: State, own: Option<nat>, responded: bool)
    requires OK(s) && Possible(s, LateReset(own, responded)) && Tolerable(s, LateReset(own, responded))
    ensures OK(Next(s, LateReset(own, responded)))
  {
    hide Reachable, Unborn, Virgin, FilesOK, StartedOver, Blank;
    assert Current(s).logins[0] == Login(0, 0, 0) by { VisitRequests(s); }
    BlankStartsOver(Current(s), responded);
  }

  lemma VisitRequests(s: State)
    requires OK(s) && AtWork(s)
    ensures Current(s).logins != [] && Current(s).logins[0] == Login(0, 0, 0) && Reachable(Current(s))
  {
    hide Reachable;
  }

  lemma FinishKeepsOK(s: State, fileOpens: bool)
    requires OK(s) && Possible(s, FinishReset(fileOpens)) && Tolerable(s, FinishReset(fileOpens))
    ensures OK(Next(s, FinishReset(fileOpens)))
  {
    hide Reachable, Enabled;
    var w := s.visit.value.w;
    HomeFileOK(s.home);
    if fileOpens {
      CanJoin(w);
      StepReachable(w, FinishLogin(0));
    } else {
      CanAbandon(w);
      StepReachable(w, AbandonLogin);
      assert w.(client := Endpoint(EMPTY_QUEUE, [], []), waiting := None) == Step(w, AbandonLogin);
    }
  }

  lemma HomeFileOK(w: World)
    requires Reachable(w)
    ensures w.client.q.msgs == [] ==> w.client.q.sent == 0
  {
    hide Reachable, SessionsOK, ConnOK, LoginsOK, Delivered, PushedOK;
    ReachableOK(w);
  }

  lemma RenameKeepsOK(s: State, name: string)
    requires OK(s) && Possible(s, Rename(name))
    ensures OK(Next(s, Rename(name)))
  {
    hide Reachable, Enabled, FilesOK;
    CrashReachable(s.home, Server);
    if s.visit.Some? {
      CrashReachable(s.visit.value.w, Server);
    }
  }

  /** Exactly the tolerable events leave the two ends in agreement. */
  lemma TolerableExactly(s: State, e: Event)
    requires OK(s) && Possible(s, e)
    ensures InAgreement(Next(s, e)) <==> Tolerable(s, e)
  {
    hide Reachable, Agrees, Step, HandleLoginStep, FinishLoginStep, Enabled, Unborn, Virgin;
    if Tolerable(s, e) {
      hide Possible, Next, Tolerable;
      NextKeepsOK(s, e);
      ReachableAgrees(Next(s, e).home);
      if Next(s, e).visit.Some? {
        ReachableAgrees(Next(s, e).visit.value.w);
      }
    } else if e.LateReset? {
      VisitRequests(s);
      ForgottenDisagrees(Current(s), e.responded);
    } else {
      StaleDisagrees(s.visit.value.w, FileOf(s.files, s.visit.value.name));
    }
  }

  // ----- Histories of events

  ghost predicate Happens(s: State, events: seq<Event>, s': State)
    decreases |events|
  {
    if events == [] then s' == s
    else Possible(s, events[0]) && Tolerable(s, events[0]) && Happens(Next(s, events[0]), events[1..], s')
  }

  ghost predicate Beginning(s: State) {
    exists le, cap: nat, serverName :: 8 * cap < M32 && serverName != "" && s == Init(le, cap, serverName)
  }

  /** The states of all histories of tolerable events. */
  ghost predicate Reached(s: State) {
    exists start, events :: Beginning(start) && Happens(start, events, s)
  }

  lemma {:induction false} HappensKeepsOK(s: State, events: seq<Event>, s': State)
    requires OK(s) && Happens(s, events, s')
    ensures OK(s')
    decreases |events|
  {
    hide OK, Possible, Tolerable, Next;
    if events != [] {
      NextKeepsOK(s, events[0]);
      HappensKeepsOK(Next(s, events[0]), events[1..], s');
    }
  }

  lemma BeginningOK(s: State)
    requires Beginning(s)
    ensures OK(s)
  {
    hide Reachable;
    var le, cap: nat, serverName :| 8 * cap < M32 && serverName != "" && s == Init(le, cap, serverName);
    StartReachable(le, cap);
  }

  lemma ReachedOK(s: State)
    requires Reached(s)
    ensures OK(s)
  {
    hide OK, Happens, Beginning;
    var start, events :| Beginning(start) && Happens(start, events, s);
    BeginningOK(start);
    HappensKeepsOK(start, events, s);
  }

  // ----- What holds across names

  /** Whatever names the server has had: since the two ends last started over together, each side
      has popped what the other has pushed, in order and each once, and the rest is in the queues;
      and a server that has started over alone still has everything it has pushed since. */
  lemma IntactSinceReset(s: State)
    requires Reached(s)
    ensures Intact(s.home.client, s.home.server) && Intact(s.home.server, s.home.client)
    ensures s.visit.Some? ==>
      var e := s.visit.value.w.server; e.popped == [] && e.q.ack == 0 && e.q.base == 0 && e.q.msgs == e.pushed
  {
    hide Reached, Reachable, Intact;
    ReachedOK(s);
    ExactlyOnceInOrder(s.home);
    if s.visit.Some? {
      UnbornServer(s.visit.value.w);
    }
  }

  lemma UnbornServer(w: World)
    requires Reachable(w) && Unborn(w)
    ensures w.server.popped == [] && w.server.q.ack == 0 && w.server.q.base == 0 && w.server.q.msgs == w.server.pushed
  {
    hide Reachable, SessionsOK, ConnOK, LoginsOK, PushedOK, TotalBlocks, Contents;
    ReachableOK(w);
    assert w.server.pushed[0..] == w.server.pushed;
  }

  /** Both ends have started over: no counter has moved, and what the server has pushed since is all
      still to be delivered. */
  ghost predicate Restarted(w: World) {
    && w.client == Endpoint(EMPTY_QUEUE, [], [])
    && w.server.popped == [] && w.server.q.ack == 0 && w.server.q.base == 0
    && w.server.q.msgs == w.server.pushed
  }

  /** Both ends have gone on: no history is lost, no counter has moved. */
  ghost predicate Continued(w: World, w': World) {
    && w'.client.pushed == w.client.pushed && w'.client.popped == w.client.popped
    && w'.server == w.server
    && w'.client.q.ack == w.client.q.ack && w'.client.q.End() == w.client.q.End()
  }

  /** After a login that both ends complete, either both have started over or both have gone on, and
      which of the two depends on the name the client had stored alone. */
  lemma ResetAgrees(s: State, e: Event)
    requires Reached(s) && Possible(s, e)
    requires (e.Home? && e.a.FinishLogin?) || e == FinishReset(true)
    ensures var s' := Next(s, e);
      && s'.home.clientConn.Conn? && s'.home.clientConn.open && s'.home.waiting.None?
      && if e.FinishReset? then s'.clientName == s.visit.value.name && Restarted(s'.home)
         else s'.clientName == s.clientName && Continued(s.home, s'.home)
  {
    hide Reached, Reachable, Enabled;
    ReachedOK(s);
    if e.FinishReset? {
      UnbornServer(s.visit.value.w);
      JoinedFresh(s.visit.value.w);
    } else {
      Continues(s.home, e.a.sid);
    }
  }

  lemma JoinedFresh(w: World)
    requires Reachable(w) && Unborn(w) && w.sessions != []
    requires w.server.popped == [] && w.server.q.ack == 0 && w.server.q.base == 0 && w.server.q.msgs == w.server.pushed
    ensures var w' := FinishLoginStep(w, 0);
      && w'.clientConn == Conn(0, true, 0, 0) && w'.waiting.None? && Restarted(w')
  {
    hide Reachable;
    CanJoin(w);
    SessionStartsAtZero(w);
  }

  lemma SessionStartsAtZero(w: World)
    requires Reachable(w) && w.sessions != [] && w.server.popped == []
    ensures w.sessions[0].toServer.start == 0
  {
    hide Reachable, Inv;
    ReachableOK(w);
    assert SessionsOK(w) by { InvSessions(w); }
    SessionStart(w, 0);
  }

  lemma InvSessions(w: World)
    requires Inv(w)
    ensures SessionsOK(w)
  {
  }

  lemma Continues(w: World, sid: nat)
    requires Reachable(w) && Enabled(w, FinishLogin(sid))
    ensures var w' := Step(w, FinishLogin(sid));
      Continued(w, w') && w'.clientConn == Conn(sid, true, 0, 0) && w'.waiting.None?
  {
    hide Reachable, SessionOK, SessionsOK, EndpointsOK, ConnOK, TxOK, RxOK, QueueOK, FlowOK, CrossOK, Delivered,
      Extends;
    ReachableOK(w);
    FinishAll(w, sid);
  }

  // ----- The next login succeeds

  /** With differing names: whenever the client waits for a request that no server has handled, and
      the server is not connected to it, the server can handle the request, which makes it start
      over, the client can complete the login, and both are joined on empty queues. */
  lemma NextLoginResets(s: State, i: nat)
    requires Reached(s) && s.clientName != s.serverName
    requires s.home.waiting == Some(i) && i !in s.answered
    requires Visiting(s) ==> !s.visit.value.w.Open(Server)
    ensures Possible(s, ResetLogin(i, true)) && Possible(Next(s, ResetLogin(i, true)), FinishReset(true))
    ensures var s' := Next(Next(s, ResetLogin(i, true)), FinishReset(true));
      && s'.clientName == s'.serverName == s.serverName
      && Joined(s'.home) && Restarted(s'.home) && s'.home.server.pushed == []
      && s'.files == Filed(s)
      && s'.overtaken == s.overtaken + Unanswered(|s.home.logins|, s.answered + {i})
  {
    hide Reached, Reachable, Unborn;
    ReachedOK(s);
    CapBound(s.home);
    ResetLoginIsAccepted(s.home.le, s.home.cap, true);
    assert s.visit.Some? ==> s.visit.value.attempt < i;
  }

  /** With equal names: whenever the client waits and the server is not connected to it, the server can
      handle the request, the client can complete the login, and both are joined with nothing lost. */
  lemma NextLoginContinues(s: State, i: nat)
    requires Reached(s) && s.clientName == s.serverName
    requires s.home.waiting == Some(i) && !s.home.Open(Server)
    ensures Possible(s, Home(HandleLogin(i, true)))
    ensures Possible(Next(s, Home(HandleLogin(i, true))), Home(FinishLogin(|s.home.sessions|)))
    ensures var s' := Next(Next(s, Home(HandleLogin(i, true))), Home(FinishLogin(|s.home.sessions|)));
      && s'.clientName == s.clientName && s'.serverName == s.serverName
      && Joined(s'.home) && SamePast(s.home, s'.home)
  {
    hide Reached, Reachable, Enabled, Step, Inv, Unborn;
    ReachedOK(s);
    ReachableOK(s.home);
    AwaitedLoginJoins(s.home);
  }
}
