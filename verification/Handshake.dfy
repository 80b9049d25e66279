/** The login handshake as the client's `Connect` and the server's `HandleLogin` execute it, for one
    client: which queue file is opened, what is reset, what is sent, and when each side gives up.

    A queue file is represented by the queue it holds; a file that does not exist yet is created
    empty.  Failures of the file system and of the network are arguments.
 */
module Handshake {
  import opened Words
  import opened SendQueue
  import opened Flows
  import opened Protocol
  import opened Recovery
  import opened ProtocolSteps
  import opened Refinement
  import opened ServerName
  import PtcpConn

  datatype Request = Request(lastServerName: string, ack: u32, start: u32, end: u32)

  datatype Status = Accepted | SeqMismatch | OtherError

  datatype Response = Response(status: Status, serverName: string, ack: u32)

  /** How `Connect` ends once a response has come; `OutOfQueue` is the point from which the code would
      release messages it does not have. */
  datatype Completion = Opened | Refused | OutOfQueue

  /** The verdict of `SanityCheckAndGetSeq` on a file. */
  predicate Sane(q: Queue) {
    NoneTooNew(q.ack, q.msgs)
  }

  /** A file whose stamps are less than 2^31 from its acknowledgement is accepted if and only if none of
      them is newer. */
  lemma SaneExact(q: Queue)
    requires forall i :: 0 <= i < |q.msgs| ==> -HALF32 <= q.ack - q.msgs[i].stamp < HALF32
    ensures Sane(q) <==> forall i :: 0 <= i < |q.msgs| ==> q.msgs[i].stamp <= q.ack
  {
    hide TooNew;
    forall i | 0 <= i < |q.msgs|
      ensures TooNew(q.ack, q.msgs[i]) <==> q.msgs[i].stamp > q.ack
    {
      TooNewExact(q.ack, q.msgs[i]);
    }
  }

  /** An acknowledgement that has passed the window test is for a message that was pushed. */
  lemma CheckedCanAck(q: Queue, ack: u32)
    requires |q.msgs| < HALF32 && CheckAckInQueue(ack, Wrap(q.base), Wrap(q.End()))
    ensures q.CanAck(ack)
  {
    hide Diff, Wrap, CheckAckInQueue;
    WrapAddWrap(q.base, |q.msgs|);
    CheckedDistance(ack, Wrap(q.base), |q.msgs|);
  }

  /** No file but that of `name` has changed. */
  ghost predicate OthersKept(files: map<string, Queue>, files': map<string, Queue>, name: string) {
    forall n :: n != name ==> FileOf(files', n) == FileOf(files, n)
  }

  class Client {
    var serverName: string
    var files: map<string, Queue>
    var open: bool

    constructor ()
      ensures serverName == "" && files == map[] && !open
    {
      serverName, files, open := "", map[], false;
    }

    ghost function File(): Queue
      reads this
    {
      FileOf(files, serverName)
    }

    /** `Connect` up to the moment the request has been sent. */
    method Ask(fileOpens: bool, requestSent: bool) returns (r: Option<Request>)
      modifies this
      ensures serverName == old(serverName) && open == old(open) && File() == old(File())
      ensures OthersKept(old(files), files, serverName)
      ensures r.Some? <==> !open && (serverName == "" || (fileOpens && Sane(File()))) && requestSent
      ensures r.Some? ==> r.value.lastServerName == serverName
      ensures r.Some? && serverName != "" ==>
        r.value.ack == Wrap(File().ack) && r.value.start == Wrap(File().base) && r.value.end == Wrap(File().End())
      ensures r.Some? && serverName == "" ==> r.value.ack == 0 && r.value.start == 0 && r.value.end == 0
    {
      if open {
        return None;
      }
      var login := Request(serverName, 0, 0, 0);
      if serverName != "" {
        if !fileOpens {
          return None;
        }
        var q := FileOf(files, serverName);
        files := files[serverName := q];
        if !Sane(q) {
          return None;
        }
        login := Request(serverName, Wrap(q.ack), Wrap(q.base), Wrap(q.End()));
      }
      return if requestSent then Some(login) else None;
    }

    /** The rest of `Connect`: an unknown name of the server makes the client start over in the file
        of that name. */
    method Complete(rsp: Response, fileOpens: bool) returns (outcome: Completion)
      requires !open
      modifies this
      ensures var same := rsp.serverName == old(serverName);
        var q := if same then old(File()) else EMPTY_QUEUE;
        var accepted := rsp.status.Accepted? && rsp.serverName != "";
        && serverName == (if accepted then rsp.serverName else old(serverName))
        && (outcome.Refused? <==> !accepted || (!same && !fileOpens))
        && (outcome.OutOfQueue? <==> accepted && (same || fileOpens) && !q.CanAck(rsp.ack))
        && (open <==> outcome.Opened?)
        && (outcome.Opened? ==> File() == q.LoginAck(rsp.ack) && OthersKept(old(files), files, serverName))
        && (outcome.Refused? ==> files == old(files))
    {
      if rsp.serverName == "" || !rsp.status.Accepted? {
        return Refused;
      }
      var q := FileOf(files, serverName);
      if serverName != rsp.serverName {
        serverName := rsp.serverName;
        if !fileOpens {
          return Refused;
        }
        q := EMPTY_QUEUE;
      }
      if !q.CanAck(rsp.ack) {
        return OutOfQueue;
      }
      files := files[serverName := q.LoginAck(rsp.ack)];
      open := true;
      return Opened;
    }
  }

  /** The window tests; after a reset there is nothing to test. */
  predicate Fits(r: Request, name: string, q: Queue) {
    r.lastServerName != name ||
      (CheckAckInQueue(r.ack, Wrap(q.base), Wrap(q.End())) && CheckAckInQueue(Wrap(q.ack), r.start, r.end))
  }

  class Server {
    var name: string
    var files: map<string, Queue>
    var open: bool

    constructor (name: string)
      ensures this.name == name && files == map[] && !open
    {
      this.name, files, open := name, map[], false;
    }

    ghost function File(): Queue
      reads this
    {
      FileOf(files, name)
    }

    /** `HandleLogin` once the client's connection object has been found, which is not live.  The
        message an error carries does not matter here. */
    method HandleLogin(r: Request, fileOpens: bool, responseSent: bool) returns (rsp: Response)
      requires !open
      requires |File().msgs| < HALF32
      modifies this
      ensures rsp.serverName == name == old(name) && OthersKept(old(files), files, name)
      ensures var q := if r.lastServerName == name then old(File()) else EMPTY_QUEUE;
        var ack := if r.lastServerName == name then r.ack else 0;
        && (rsp.status.OtherError? <==> !fileOpens || !Sane(q))
        && (rsp.status.Accepted? <==> fileOpens && Sane(q) && Fits(r, name, q))
        && (open <==> rsp.status.Accepted? && responseSent)
        && (!rsp.status.OtherError? ==> rsp.ack == Wrap(q.ack))
        && (rsp.status.Accepted? ==> q.CanAck(ack))
        && File() == if !fileOpens then old(File()) else if !open then q else q.LoginAck(ack)
    {
      rsp := Response(OtherError, name, 0);
      if !fileOpens {
        return;
      }
      var q := FileOf(files, name);
      var ack, start, end := r.ack, r.start, r.end;
      if r.lastServerName != name {
        q := EMPTY_QUEUE;
        ack, start, end := 0, 0, 0;
      }
      files := files[name := q];
      if r.lastServerName == name && !Sane(q) {
        return;
      }
      rsp := Response(SeqMismatch, name, Wrap(q.ack));
      if !CheckAckInQueue(ack, Wrap(q.base), Wrap(q.End())) || !CheckAckInQueue(Wrap(q.ack), start, end) {
        return;
      }
      rsp := rsp.(status := Accepted);
      CheckedCanAck(q, ack);
      if responseSent {
        files := files[name := q.LoginAck(ack)];
        open := true;
      }
    }
  }

  // ----- The handshake is what the machine says

  /** The client object in state `s`, with all its files. */
  ghost predicate ClientIs(c: Client, s: State)
    reads c
  {
    && c.serverName == s.clientName && c.open == s.home.Open(Side.Client) && c.File() == s.home.client.q
    && forall n :: n != s.clientName && n != "" ==> FileOf(c.files, n) == FileOf(s.files, n)
  }

  /** The server object in state `s`, with the queue it has for this client under its present name if
      it has opened one since it started over. */
  ghost predicate ServerIs(v: Server, s: State)
    reads v
  {
    && v.name == s.serverName
    && if AtWork(s) then v.open == Current(s).Open(Side.Server) && v.File() == Current(s).server.q else !v.open
  }

  /** The beginning: new objects represent the machine's initial state. */
  method NewPair(serverName: string, ghost le: bool, ghost cap: nat) returns (c: Client, v: Server)
    requires 8 * cap < M32 && serverName != ""
    ensures fresh(c) && fresh(v)
    ensures ClientIs(c, Init(le, cap, serverName)) && ServerIs(v, Init(le, cap, serverName))
    ensures Reached(Init(le, cap, serverName))
  {
    hide Reached, Happens;
    c := new Client();
    v := new Server(serverName);
    BeginningReached(le, cap, serverName);
  }

  lemma BeginningReached(le: bool, cap: nat, serverName: string)
    requires 8 * cap < M32 && serverName != ""
    ensures Reached(Init(le, cap, serverName))
  {
    assert Happens(Init(le, cap, serverName), [], Init(le, cap, serverName));
    assert Beginning(Init(le, cap, serverName));
  }

  /** `r` carries the stored name and the numbers of the `i`-th request. */
  ghost predicate Carries(r: Request, s: State, i: nat) {
    && i < |s.home.logins| && r.lastServerName == s.clientName
    && var l := s.home.logins[i]; r.ack == Wrap(l.ack) && r.start == Wrap(l.start) && r.end == Wrap(l.end)
  }

  lemma AskFacts(s: State)
    requires Reached(s)
    ensures Sane(s.home.client.q) && OK(s)
    ensures s.clientName == "" ==> s.home.client.q == EMPTY_QUEUE
  {
    hide Reached, Reachable;
    ReachedOK(s);
    NeverCorrupt(s.home, Side.Client);
  }

  /** A request that gets out is the machine's. */
  method RunAsk(c: Client, ghost s: State, fileOpens: bool, requestSent: bool)
    returns (r: Option<Request>, ghost s': State)
    requires ClientIs(c, s) && Reached(s) && (!c.open ==> Possible(s, Home(SendLogin)))
    modifies c
    ensures ClientIs(c, s')
    ensures r.Some? <==> !old(c.open) && (s.clientName == "" || fileOpens) && requestSent
    ensures r.Some? ==> Possible(s, Home(SendLogin)) && s' == Next(s, Home(SendLogin))
    ensures r.Some? ==> Carries(r.value, s', |s.home.logins|)
    ensures r.None? ==> s' == s
  {
    hide Reached, NoneTooNew, OK;
    AskFacts(s);
    r := c.Ask(fileOpens, requestSent);
    s' := if r.Some? then Next(s, Home(SendLogin)) else s;
  }

  lemma EmptySane()
    ensures Sane(EMPTY_QUEUE)
  {
  }

  lemma ServerFacts(s: State)
    requires Reached(s)
    ensures Sane(s.home.server.q) && |s.home.server.q.msgs| < HALF32
    ensures OK(s)
  {
    hide Reached, Reachable, NoneTooNew;
    ReachedOK(s);
    NeverCorrupt(s.home, Side.Server);
    ShortQueue(s.home);
  }

  lemma ShortQueue(w: World)
    requires Reachable(w)
    ensures |w.server.q.msgs| < HALF32
  {
    hide Reachable, QueueOK, SessionsOK, ConnOK, LoginsOK;
    ReachableOK(w);
    QueueMsgsValid(w.cap, w.server);
  }

  /** `e` is, for the machine, the handling of request `r`: one of the stored name by a server of that
      name, or one of another name by a server that starts over, in time or late. */
  ghost predicate Handles(s: State, e: Event, r: Request, responded: bool) {
    match e
    case Home(a) => a.HandleLogin? && a.responded == responded && Carries(r, s, a.i)
    case ResetLogin(i, b) => b == responded && Carries(r, s, i)
    case LateReset(_, b) => b == responded && r.lastServerName != s.serverName
    case _ => false
  }

  /** The server handles a request, the latest or an older one.  It goes on or starts over exactly as
      the machine does, and accepts exactly what the machine accepts; after a reset, everything. */
  method RunHandle(v: Server, ghost s: State, ghost e: Event, r: Request, fileOpens: bool, responseSent: bool)
    returns (rsp: Response, ghost s': State)
    requires ServerIs(v, s) && Reached(s) && !v.open && |v.File().msgs| < HALF32
    requires Handles(s, e, r, responseSent) && Possible(s, e)
    modifies v
    ensures fileOpens ==> (rsp.status.Accepted? <==> e.Home? ==> Accepts(s.home.server.q, s.home.logins[e.a.i]))
    ensures rsp.serverName == s.serverName
    ensures s' == if fileOpens && (rsp.status.Accepted? || !e.Home?) then Next(s, e) else s
    ensures ServerIs(v, s')
    ensures v.open <==> rsp.status.Accepted? && responseSent
    ensures rsp.status.Accepted? ==> rsp.ack == Wrap(if e.Home? then s.home.server.q.ack else 0)
  {
    hide Reached, Reachable, NoneTooNew, Wrap, VisitOK, CheckAckInQueue, HandleLoginStep, Virgin, FilesOK;
    ServerFacts(s);
    EmptySane();
    rsp := v.HandleLogin(r, fileOpens, responseSent);
    s' := s;
    if fileOpens && (rsp.status.Accepted? || !e.Home?) {
      s' := Next(s, e);
      if e.Home? {
        HandledServer(s.home, e.a.i, responseSent);
      } else if e.ResetLogin? {
        ResetServer(s.home.le, s.home.cap, responseSent);
      } else {
        LateServer(s, responseSent);
      }
    }
  }

  lemma ResetServer(le: bool, cap: nat, responded: bool)
    ensures var w := HandleLoginStep(Asked(le, cap), 0, responded);
      w.Open(Side.Server) == responded && w.server.q == if responded then EMPTY_QUEUE.LoginAck(0) else EMPTY_QUEUE
  {
  }

  lemma LateServer(s: State, responded: bool)
    requires OK(s) && AtWork(s) && Current(s).logins != []
    ensures var w := StartedOver(Current(s), responded);
      w.Open(Side.Server) == responded && w.server.q == if responded then EMPTY_QUEUE.LoginAck(0) else EMPTY_QUEUE
  {
    hide Reachable;
    VisitRequests(s);
  }

  lemma HandledServer(w: World, i: nat, responded: bool)
    requires i < |w.logins| && !w.Open(Side.Server) && Accepts(w.server.q, w.logins[i])
    requires w.server.q.CanAck(Wrap(w.logins[i].ack))
    ensures var w' := HandleLoginStep(w, i, responded);
      && w'.Open(Side.Server) == responded
      && w'.server.q == if responded then w.server.q.LoginAck(Wrap(w.logins[i].ack)) else w.server.q
  {
    hide Accepts;
  }

  /** What the response makes of the client, for the machine. */
  function CompleteEvent(s: State, serverName: string, fileOpens: bool, sid: nat): Event {
    if serverName == s.clientName then Home(FinishLogin(sid)) else FinishReset(fileOpens)
  }

  /** The response of session `sid`, or of the reset the client has caused, completes the login exactly
      as the machine does, whatever the file of a new name holds; and the server's acknowledgement
      never leads out of the queue. */
  method RunComplete(c: Client, ghost s: State, ghost sid: nat, rsp: Response, fileOpens: bool)
    returns (outcome: Completion, ghost s': State)
    requires ClientIs(c, s) && Reached(s) && rsp.status.Accepted?
    requires Possible(s, CompleteEvent(s, rsp.serverName, fileOpens, sid))
    requires rsp.serverName == s.clientName ==> rsp.ack == Wrap(s.home.sessions[sid].toServer.start)
    requires rsp.serverName != ""
    requires rsp.serverName != s.clientName ==> rsp.ack == 0 && rsp.serverName == s.visit.value.name
    modifies c
    ensures outcome == if rsp.serverName == s.clientName || fileOpens then Opened else Refused
    ensures s' == Next(s, CompleteEvent(s, rsp.serverName, fileOpens, sid))
    ensures ClientIs(c, s')
  {
    hide Reached, Reachable, NoneTooNew, OK, Wrap, FinishLoginStep;
    CompleteFacts(s, rsp.serverName, fileOpens, sid);
    outcome := c.Complete(rsp, fileOpens);
    s' := Next(s, CompleteEvent(s, rsp.serverName, fileOpens, sid));
  }

  /** After the login the client's queue is the old one, acknowledged, or an empty one. */
  lemma CompleteFacts(s: State, serverName: string, fileOpens: bool, sid: nat)
    requires Reached(s) && Possible(s, CompleteEvent(s, serverName, fileOpens, sid))
    ensures !s.home.Open(Side.Client)
    ensures s.visit.Some? ==> s.visit.value.name != "" && Unborn(s.visit.value.w)
    ensures s.clientName == "" ==> s.home.client.q == EMPTY_QUEUE
    ensures serverName == s.clientName ==>
      var a, w' := Wrap(s.home.sessions[sid].toServer.start), FinishLoginStep(s.home, sid);
      s.home.client.q.CanAck(a) && w'.client.q == s.home.client.q.LoginAck(a) && w'.Open(Side.Client)
    ensures serverName != s.clientName ==>
      var w' := FinishLoginStep(s.visit.value.w, 0);
      EMPTY_QUEUE.CanAck(0) && w'.client.q == EMPTY_QUEUE.LoginAck(0) && w'.Open(Side.Client)
  {
    hide Reached, Reachable, FinishLoginStep, Enabled;
    ReachedOK(s);
    if serverName == s.clientName {
      Joins(s.home, sid);
    } else {
      UnbornServer(s.visit.value.w);
      JoinedFresh(s.visit.value.w);
    }
    ClientWaits(s.home);
  }

  lemma ClientWaits(w: World)
    requires Reachable(w) && w.waiting.Some?
    ensures !w.Open(Side.Client)
  {
    hide Reachable, EndpointsOK, SessionsOK, ConnOK;
    ReachableOK(w);
  }

  lemma Joins(w: World, sid: nat)
    requires Reachable(w) && Enabled(w, FinishLogin(sid))
    ensures w.waiting.Some?
    ensures var a, w' := Wrap(w.sessions[sid].toServer.start), FinishLoginStep(w, sid);
      w.client.q.CanAck(a) && w'.client.q == w.client.q.LoginAck(a) && w'.Open(Side.Client)
  {
    hide Reachable, SessionOK, SessionsOK, EndpointsOK, ConnOK, TxOK, RxOK, QueueOK, FlowOK, CrossOK, Delivered,
      Extends;
    ReachableOK(w);
    FinishAll(w, sid);
  }

  // ----- Starting over on the connection objects

  /** The server's object after a reset, whatever its file held: it represents the server of a visit. */
  method ServerStartsOver(c: Connection, fd: int, now: int, script: seq<PtcpConn.SendResult>)
    returns (emitted: seq<byte>, ghost w': World)
    requires AnyFile(c) && c.IsClosed() && c.fdToClose < 0 && fd >= 0
    modifies c, c.q
    ensures var w1 := HandleLoginStep(Asked(c.q.wireLittle, c.q.blkCnt), 0, true);
      && Represents(c, w', Side.Server) && Acts(w1, w', Side.Server)
      && SameHistory(w1, w', Side.Server) && Emitted(w1, w', Side.Server, emitted)
  {
    hide Reachable, Acts, SameHistory, Emitted, Represents, HandleLoginStep, PtcpConn.PTCPConnection.RxValid;
    ResetLoginIsAccepted(c.q.wireLittle, c.q.blkCnt, true);
    VisitMatches(c.q.wireLittle, c.q.blkCnt);
    emitted, w' := StartOver(c, HandleLoginStep(Asked(c.q.wireLittle, c.q.blkCnt), 0, true), Side.Server, fd, now,
      script);
  }

  lemma VisitMatches(le: bool, cap: nat)
    ensures var w := HandleLoginStep(Asked(le, cap), 0, true);
      Matches(EMPTY_QUEUE, true, [], 0, w, Side.Server) && w.le == le && w.cap == cap
  {
  }

  /** The client's object after a reset, whatever its file held: it represents the client that has
      completed the login of a visit `w`. */
  method ClientStartsOver(c: Connection, ghost w: World, fd: int, now: int, script: seq<PtcpConn.SendResult>)
    returns (emitted: seq<byte>, ghost w': World)
    requires AnyFile(c) && c.IsClosed() && c.fdToClose < 0 && fd >= 0
    requires Reachable(w) && Unborn(w) && w.sessions != [] && w.le == c.q.wireLittle && w.cap == c.q.blkCnt
    modifies c, c.q
    ensures var w1 := FinishLoginStep(w, 0);
      && Represents(c, w', Side.Client) && Acts(w1, w', Side.Client)
      && SameHistory(w1, w', Side.Client) && Emitted(w1, w', Side.Client, emitted)
  {
    hide Reachable, Acts, SameHistory, Emitted, Represents, FinishLoginStep, PtcpConn.PTCPConnection.RxValid;
    CanJoin(w);
    StepReachable(w, FinishLogin(0));
    JoinMatches(w);
    emitted, w' := StartOver(c, FinishLoginStep(w, 0), Side.Client, fd, now, script);
  }

  lemma JoinMatches(w: World)
    requires Reachable(w) && Unborn(w) && w.sessions != []
    ensures var w' := FinishLoginStep(w, 0);
      Matches(EMPTY_QUEUE, true, [], 0, w', Side.Client) && w'.le == w.le && w'.cap == w.cap
  {
    hide Reachable;
    UnbornServer(w);
    SessionStartsAtZero(w);
  }
}
