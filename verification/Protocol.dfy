/** Two endpoints of one persistent connection as a state machine.

    Each endpoint has its queue, which survives crashes, and at most one connection.  A login
    creates a session: a pair of byte streams.  Streams of old sessions are kept, because an
    endpoint may still be reading one its peer has left.  Every step is one operation of the
    library or one event of the network; the queue operations and the parsing functions are those
    the classes are proved against.
 */
module Protocol {
  import opened Words
  import opened MsgHeader
  import opened Wire
  import opened SendQueue
  import opened Flows

  datatype Option<T> = None | Some(value: T)

  datatype Side = Client | Server

  function Other(x: Side): Side {
    if x.Client? then Server else Client
  }

  /** The connection object: which session, still open or not, bytes received, messages popped. */
  datatype Conn = NoConn | Conn(sid: nat, open: bool, rx: nat, taken: nat)

  /** The login request that started the session, and what each side sends in it. */
  datatype Session = Session(login: nat, toServer: Flow, toClient: Flow) {
    function Out(x: Side): Flow {
      if x.Client? then toServer else toClient
    }

    function SetOut(x: Side, f: Flow): Session {
      if x.Client? then this.(toServer := f) else this.(toClient := f)
    }
  }

  /** A login request: the client's own acknowledgement and its send window. */
  datatype Login = Login(ack: nat, start: nat, end: nat)

  datatype World = World(
    le: bool, cap: nat,
    client: Endpoint, server: Endpoint, clientConn: Conn, serverConn: Conn,
    sessions: seq<Session>, logins: seq<Login>, waiting: Option<nat>)
  {
    function Ep(x: Side): Endpoint {
      if x.Client? then client else server
    }

    function ConnOf(x: Side): Conn {
      if x.Client? then clientConn else serverConn
    }

    function Set(x: Side, e: Endpoint, c: Conn): World {
      if x.Client? then this.(client := e, clientConn := c) else this.(server := e, serverConn := c)
    }

    function SetFlow(x: Side, sid: nat, f: Flow): World
      requires sid < |sessions|
    {
      this.(sessions := sessions[sid := sessions[sid].SetOut(x, f)])
    }

    predicate Open(x: Side) {
      ConnOf(x).Conn? && ConnOf(x).open
    }

    /** The bytes `x` has received on its connection. */
    function Received(x: Side): seq<byte>
      requires ConnOf(x).Conn? && ConnOf(x).sid < |sessions|
      requires ConnOf(x).rx <= |sessions[ConnOf(x).sid].Out(Other(x)).bytes|
    {
      sessions[ConnOf(x).sid].Out(Other(x)).bytes[..ConnOf(x).rx]
    }
  }

  datatype Action =
    | Push(x: Side, msgType: u16, payload: seq<byte>, pad: seq<byte>)
    | Send(x: Side, n: nat, fails: bool)
    | Beat(x: Side, n: nat)
    | Front(x: Side, n: nat)
    | Pop(x: Side)
    | Close(x: Side)
    | Crash(x: Side)
    | SendLogin
    | HandleLogin(i: nat, responded: bool)
    | FinishLogin(sid: nat)
    | AbandonLogin

  function Start(le: bool, cap: nat): World {
    var e := Endpoint(EMPTY_QUEUE, [], []);
    World(le, cap, e, e, NoConn, NoConn, [], [], None)
  }

  /** The connection of `x` points into the sessions. */
  predicate Wired(w: World, x: Side) {
    var c := w.ConnOf(x);
    c.Conn? ==> c.sid < |w.sessions| && c.rx <= |w.sessions[c.sid].Out(Other(x)).bytes|
  }

  /** `x` has a queue whose unsent suffix can be taken. */
  predicate Sendable(w: World, x: Side) {
    var q := w.Ep(x).q;
    ValidMsgs(q.msgs) && 0 <= q.sent <= TotalBlocks(q.msgs)
  }

  /** The server's answer to a login: both windows must contain the other side's acknowledgement,
      all numbers compared as the 32-bit values on the wire. */
  predicate Accepts(server: Queue, l: Login) {
    && CheckAckInQueue(Wrap(l.ack), Wrap(server.base), Wrap(server.End()))
    && CheckAckInQueue(Wrap(server.ack), Wrap(l.start), Wrap(l.end))
  }

  /** When a step can happen.  A client inside `Connect` does nothing else.  Besides what the code
      checks there are three hypotheses: types and sizes of pushed messages are legal, a message
      leaves the send queue before 2^31 further pops, and a login request is not older than 2^31
      messages of the server. */
  predicate Enabled(w: World, a: Action) {
    Wired(w, Client) && Wired(w, Server) &&
    match a
    case Push(x, msgType, payload, pad) =>
      var m := Msg(msgType, w.Ep(x).q.ack, payload, pad);
      && Free(w, x) && ValidMsg(m) && IsApp(m)
      && TotalBlocks(w.Ep(x).q.msgs) + MsgBlocks(m) <= w.cap
    case Send(x, n, fails) =>
      && w.Open(x) && Sendable(w, x)
      && n <= 8 * (TotalBlocks(w.Ep(x).q.msgs) - w.Ep(x).q.sent)
      && (n % 8 != 0 ==> fails)
    case Beat(x, n) => w.Open(x) && Sendable(w, x) && w.Ep(x).q.sent == TotalBlocks(w.Ep(x).q.msgs) && 0 < n <= 8
    case Front(x, n) =>
      && w.Open(x) && Free(w, x)
      && w.ConnOf(x).rx + n <= |w.sessions[w.ConnOf(x).sid].Out(Other(x)).bytes|
    case Pop(x) =>
      && w.ConnOf(x).Conn? && Free(w, x) && MayPop(w.Ep(x).q)
      && w.ConnOf(x).taken < |AppItems(Items(w.le, w.Received(x)))|
    case Close(x) => w.Open(x)
    case Crash(x) => true
    case SendLogin => !w.Open(Client) && w.waiting.None?
    case HandleLogin(i, _) => !w.Open(Server) && i < |w.logins| && w.server.q.End() - w.logins[i].ack < HALF32
    case FinishLogin(sid) => sid < |w.sessions| && w.waiting == Some(w.sessions[sid].login)
    case AbandonLogin => w.waiting.Some?
  }

  /** The side is not blocked inside `Connect`. */
  predicate Free(w: World, x: Side) {
    x.Client? ==> w.waiting.None?
  }

  function Step(w: World, a: Action): World
    requires Enabled(w, a)
  {
    match a
    case Push(x, msgType, payload, pad) => PushStep(w, x, msgType, payload, pad)
    case Send(x, n, fails) => SendStep(w, x, n, fails)
    case Beat(x, n) => BeatStep(w, x, n)
    case Front(x, n) => FrontStep(w, x, n)
    case Pop(x) => PopStep(w, x)
    case Close(x) => w.Set(x, w.Ep(x), w.ConnOf(x).(open := false))
    case Crash(x) => CrashStep(w, x)
    case SendLogin =>
      w.(logins := w.logins + [Login(w.client.q.ack, w.client.q.base, w.client.q.End())], waiting := Some(|w.logins|))
    case HandleLogin(i, responded) => HandleLoginStep(w, i, responded)
    case FinishLogin(sid) => FinishLoginStep(w, sid)
    case AbandonLogin => w.(waiting := None)
  }

  function PushStep(w: World, x: Side, msgType: u16, payload: seq<byte>, pad: seq<byte>): World
    requires Wired(w, x)
  {
    var e, c := w.Ep(x), w.ConnOf(x);
    var m := Msg(msgType, e.q.ack, payload, pad);
    var w' := w.Set(x, PushEndpoint(e, msgType, payload, pad), c);
    if w.Open(x) then
      var f := w.sessions[c.sid].Out(x);
      w'.SetFlow(x, c.sid, f.(plan := f.plan + [m]))
    else w'
  }

  /** `SendPending`: `n` bytes of the unsent suffix go out.  Unless a send fails, they are whole
      blocks and the send index moves on. */
  function SendStep(w: World, x: Side, n: nat, fails: bool): World
    requires Wired(w, x) && w.Open(x) && Sendable(w, x)
    requires n <= 8 * (TotalBlocks(w.Ep(x).q.msgs) - w.Ep(x).q.sent)
  {
    var e, c := w.Ep(x), w.ConnOf(x);
    var w' := w.SetFlow(x, c.sid, SendFlow(w.le, e, w.sessions[c.sid].Out(x), n));
    if fails then w'.Set(x, e, c.(open := false))
    else w'.Set(x, e.(q := e.q.Sendout(n / 8)), c)
  }

  /** The heartbeat of `SendHB`: sent in part, it closes the connection. */
  function BeatStep(w: World, x: Side, n: nat): World
    requires Wired(w, x) && w.Open(x) && n <= 8
  {
    var e, c := w.Ep(x), w.ConnOf(x);
    var w' := w.SetFlow(x, c.sid, BeatFlow(w.le, e, w.sessions[c.sid].Out(x), n));
    w'.Set(x, e, c.(open := n == 8))
  }

  /** The acknowledgements of `Front`'s parse loop after reading `n` more bytes: those of all
      headers visible from the first incomplete message on. */
  function FrontStep(w: World, x: Side, n: nat): World
    requires Wired(w, x) && w.Open(x)
    requires w.ConnOf(x).rx + n <= |w.sessions[w.ConnOf(x).sid].Out(Other(x)).bytes|
  {
    var e, c := w.Ep(x), w.ConnOf(x);
    var bytes := w.sessions[c.sid].Out(Other(x)).bytes;
    var acks := Acks(w.le, bytes[..c.rx + n][Parsed(w.le, bytes[..c.rx])..]);
    var q := if e.q.CoversAll(acks) then e.q.AckAll(acks) else e.q;
    w.Set(x, e.(q := q), c.(rx := c.rx + n))
  }

  /** The application takes the first message it has not popped on this connection. */
  function PopStep(w: World, x: Side): World
    requires Wired(w, x) && w.ConnOf(x).Conn?
    requires w.ConnOf(x).taken < |AppItems(Items(w.le, w.Received(x)))|
  {
    var e, c := w.Ep(x), w.ConnOf(x);
    var it := AppItems(Items(w.le, w.Received(x)))[c.taken];
    var content := if HEADER_SIZE <= it.header.size <= HEADER_SIZE + |it.body| then ContentOfItem(it)
                   else Content(it.header.msgType, it.body);
    w.Set(x, PopEndpoint(e, content), c.(taken := c.taken + 1))
  }

  /** The receive buffer and the socket are lost, the queue file stays. */
  function CrashStep(w: World, x: Side): World {
    var w' := w.Set(x, w.Ep(x), NoConn);
    if x.Client? then w'.(waiting := None) else w'
  }

  /** `HandleLogin` with unchanged server name.  If the response cannot be sent the connection is
      not opened. */
  function HandleLoginStep(w: World, i: nat, responded: bool): World
    requires i < |w.logins|
  {
    var l, q := w.logins[i], w.server.q;
    if responded && Accepts(q, l) && q.CanAck(Wrap(l.ack)) then
      var e := w.server.(q := q.LoginAck(Wrap(l.ack)));
      var session := Session(i, Flow(q.ack, [], [], 0), Flow(l.ack, e.q.msgs, [], 0));
      w.Set(Server, e, Conn(|w.sessions|, true, 0, 0)).(sessions := w.sessions + [session])
    else w
  }

  /** The client gets the response: `Open` with the server's acknowledgement. */
  function FinishLoginStep(w: World, sid: nat): World
    requires sid < |w.sessions|
  {
    var a := w.sessions[sid].toServer.start;
    if w.client.q.CanAck(Wrap(a)) then
      var e := w.client.(q := w.client.q.LoginAck(Wrap(a)));
      w.Set(Client, e, Conn(sid, true, 0, 0)).SetFlow(Client, sid, Flow(a, e.q.msgs, [], 0)).(waiting := None)
    else w.(waiting := None)
  }

  /** Runs are finite sequences of steps, each enabled when it is taken. */
  predicate IsRun(w: World, run: seq<Action>)
    decreases |run|
  {
    run == [] || (Enabled(w, run[0]) && IsRun(Step(w, run[0]), run[1..]))
  }

  function After(w: World, run: seq<Action>): World
    requires IsRun(w, run)
    decreases |run|
  {
    if run == [] then w else After(Step(w, run[0]), run[1..])
  }

  // ----- The invariant

  ghost predicate EndpointsOK(w: World) {
    && QueueOK(w.cap, w.client) && QueueOK(w.cap, w.server)
    && Delivered(w.client, w.server) && Delivered(w.server, w.client)
  }

  ghost predicate SessionOK(le: bool, s: Session, client: Endpoint, server: Endpoint) {
    && FlowOK(le, s.toServer, client, server) && FlowOK(le, s.toClient, server, client)
    && CrossOK(s.toServer, s.toClient) && CrossOK(s.toClient, s.toServer)
  }

  ghost predicate SessionsOK(w: World) {
    forall i :: 0 <= i < |w.sessions| ==> SessionOK(w.le, w.sessions[i], w.client, w.server)
  }

  ghost predicate ConnOK(w: World, x: Side) {
    w.ConnOf(x).Conn? ==>
      && var c := w.ConnOf(x);
      && c.sid < |w.sessions|
      && var fin, fout := w.sessions[c.sid].Out(Other(x)), w.sessions[c.sid].Out(x);
      && RxOK(w.Ep(x), fin, fout, c.rx, c.taken)
      && (c.open ==> ValidMsgs(fout.plan) && ValidMsgs(w.Ep(x).q.msgs) && TxOK(w.le, w.Ep(x), fout))
  }

  /** No request claims more than the client has popped or pushed, and its base was acknowledged by
      the server; the one being waited for is exact, and so are the sessions it has led to. */
  ghost predicate LoginsOK(w: World) {
    && (forall i :: 0 <= i < |w.logins| ==>
          w.logins[i].ack <= |w.client.popped| && w.logins[i].start <= |w.server.popped|)
    && (forall i :: 0 <= i < |w.sessions| ==> w.sessions[i].login < |w.logins|)
    && (w.waiting.Some? ==>
          && w.waiting.value < |w.logins| && !w.Open(Client)
          && w.logins[w.waiting.value] == Login(|w.client.popped|, w.client.q.base, |w.client.pushed|)
          && forall i :: 0 <= i < |w.sessions| && w.sessions[i].login == w.waiting.value ==> Fresh(w, w.sessions[i]))
  }

  /** A session the client has not joined yet but may still join. */
  ghost predicate Fresh(w: World, s: Session) {
    && s.toClient.start == |w.client.popped|
    && s.toServer.plan == [] && s.toServer.bytes == []
    && w.client.q.base <= s.toServer.start <= |w.client.pushed|
  }

  ghost predicate Inv(w: World) {
    EndpointsOK(w) && SessionsOK(w) && ConnOK(w, Client) && ConnOK(w, Server) && LoginsOK(w)
  }
}
