/** One group of server connections as a value: which connection stands where, who is live.

    `fd` is the descriptor still to be closed (`fd_to_close_`), `open` says that the connection
    has not been closed yet (`sockfd_ >= 0`).  An empty name marks a connection never used.
 */
module ConnectionTable {

  datatype Slot = Slot(id: nat, name: string, fd: int, open: bool)

  datatype Group = Group(slots: seq<Slot>, live: nat)

  /** What happens after a connection has been found for a login; each test of the login procedure
      in turn. */
  datatype Fortune = Fortune(
    fileOpens: bool, fileIsSane: bool, windowsMatch: bool, responseSent: bool, fd: nat, staysOpen: bool)

  datatype Reply = InvalidName | AlreadyLoggedOn | SystemError | Mismatch | ResponseLost | LoggedOn | Full

  /** The first connection at or after `i` that bears the name or none. */
  function Find(slots: seq<Slot>, name: string, i: nat): (k: nat)
    requires i <= |slots|
    ensures i <= k <= |slots|
    decreases |slots| - i
  {
    if i == |slots| || slots[i].name == "" || slots[i].name == name then i else Find(slots, name, i + 1)
  }

  function Swap(slots: seq<Slot>, i: nat, j: nat): seq<Slot>
    requires i < |slots| && j < |slots|
  {
    slots[i := slots[j]][j := slots[i]]
  }

  /** The tests of the login procedure, in order. */
  function Tested(luck: Fortune): Reply {
    if !luck.fileOpens || !luck.fileIsSane then SystemError
    else if !luck.windowsMatch then Mismatch
    else if !luck.responseSent then ResponseLost
    else LoggedOn
  }

  /** The connection at `i` takes the descriptor and joins the live ones. */
  function Opened(g: Group, i: nat, luck: Fortune): Group
    requires g.live <= i < |g.slots|
  {
    var started := g.slots[i := g.slots[i].(fd := luck.fd, open := luck.staysOpen)];
    Group(Swap(started, i, g.live), g.live + 1)
  }

  /** The connection at `i` takes the name and, if everything succeeds, goes live. */
  function Login(g: Group, name: string, luck: Fortune): (Group, Reply)
    requires g.live <= |g.slots|
  {
    var i := Find(g.slots, name, 0);
    if name == "" then (g, InvalidName)
    else if i == |g.slots| then (g, Full)
    else
      var named := g.slots[i := g.slots[i].(name := name)];
      var g1 := g.(slots := named);
      if i < g.live then (g1, AlreadyLoggedOn)
      else if Tested(luck).LoggedOn? then (Opened(g1, i, luck), LoggedOn)
      else (g1, Tested(luck))
  }

  /** The closed connection at `i` gives up its descriptor and leaves the live ones. */
  function Reaped(g: Group, i: nat): (r: Group)
    requires i < g.live <= |g.slots|
    ensures |r.slots| == |g.slots| && r.live == g.live - 1
  {
    Group(Swap(g.slots[i := g.slots[i].(fd := -1)], i, g.live - 1), g.live - 1)
  }

  /** The sweep of the control poll from index `i` on: closed connections are reaped and swapped to
      the end of the live part. */
  function Sweep(g: Group, i: nat): Group
    requires g.live <= |g.slots|
    decreases g.live - i
  {
    if i >= g.live then g
    else if !g.slots[i].open && g.slots[i].fd >= 0 then Sweep(Reaped(g, i), i)
    else Sweep(g, i + 1)
  }

  /** A connection closes itself: an error, a timeout, or a request. */
  function Close(g: Group, i: nat): Group
    requires i < |g.slots|
  {
    g.(slots := g.slots[i := g.slots[i].(open := false)])
  }

  function Released(s: Slot): Slot {
    Slot(s.id, "", -1, false)
  }

  function Stop(g: Group): Group {
    Group(seq(|g.slots|, i requires 0 <= i < |g.slots| => Released(g.slots[i])), 0)
  }

  function Ids(slots: seq<Slot>): (r: seq<nat>)
    ensures |r| == |slots| && forall i :: 0 <= i < |slots| ==> r[i] == slots[i].id
  {
    seq(|slots|, i requires 0 <= i < |slots| => slots[i].id)
  }

  // ----- The invariant

  ghost predicate NamesDistinct(slots: seq<Slot>) {
    forall i, j :: 0 <= i < j < |slots| && slots[i].name != "" ==> slots[i].name != slots[j].name
  }

  ghost predicate NamedPrefix(slots: seq<Slot>) {
    forall i, j :: 0 <= i < j < |slots| && slots[j].name != "" ==> slots[i].name != ""
  }

  /** Live connections, and only those, hold a descriptor; they are named; an open one holds one. */
  ghost predicate LivePrefix(g: Group) {
    && g.live <= |g.slots|
    && (forall i :: 0 <= i < |g.slots| ==> (g.slots[i].fd >= 0 <==> i < g.live))
    && (forall i :: 0 <= i < g.live ==> g.slots[i].name != "")
    && (forall i :: 0 <= i < |g.slots| && g.slots[i].open ==> g.slots[i].fd >= 0)
  }

  ghost predicate Valid(g: Group, pool: multiset<nat>) {
    && LivePrefix(g) && NamedPrefix(g.slots) && NamesDistinct(g.slots)
    && multiset(Ids(g.slots)) == pool
  }

  // ----- Operations keep it

  lemma {:induction false} FindIsFirst(slots: seq<Slot>, name: string, i: nat)
    requires i <= |slots|
    ensures var k := Find(slots, name, i);
      && (forall j :: i <= j < k ==> slots[j].name != "" && slots[j].name != name)
      && (k < |slots| ==> slots[k].name == "" || slots[k].name == name)
    decreases |slots| - i
  {
    if i < |slots| && slots[i].name != "" && slots[i].name != name {
      FindIsFirst(slots, name, i + 1);
    }
  }

  lemma NameTaken(g: Group, pool: multiset<nat>, name: string)
    requires Valid(g, pool) && name != "" && Find(g.slots, name, 0) < |g.slots|
    ensures var i := Find(g.slots, name, 0);
      Valid(g.(slots := g.slots[i := g.slots[i].(name := name)]), pool)
  {
    var i := Find(g.slots, name, 0);
    FindIsFirst(g.slots, name, 0);
    var named := g.slots[i := g.slots[i].(name := name)];
    assert Ids(named) == Ids(g.slots);
    forall j | i < j < |g.slots| && g.slots[i].name == ""
      ensures g.slots[j].name == ""
    {
    }
  }

  lemma SwapIds(slots: seq<Slot>, i: nat, j: nat)
    requires i < |slots| && j < |slots|
    ensures multiset(Ids(Swap(slots, i, j))) == multiset(Ids(slots))
  {
    var ids := Ids(slots);
    assert Ids(Swap(slots, i, j)) == ids[i := ids[j]][j := ids[i]];
    SwapMultiset(ids, i, j);
  }

  lemma SwapMultiset(s: seq<nat>, i: nat, j: nat)
    requires i < |s| && j < |s|
    ensures multiset(s[i := s[j]][j := s[i]]) == multiset(s)
  {
  }

  /** Swapping two named connections keeps the names in order. */
  lemma SwapNames(slots: seq<Slot>, i: nat, j: nat)
    requires i < |slots| && j < |slots| && slots[i].name != "" && slots[j].name != ""
    requires NamedPrefix(slots) && NamesDistinct(slots)
    ensures NamedPrefix(Swap(slots, i, j)) && NamesDistinct(Swap(slots, i, j))
  {
  }

  lemma LoginKeepsValid(g: Group, pool: multiset<nat>, name: string, luck: Fortune)
    requires Valid(g, pool)
    ensures Valid(Login(g, name, luck).0, pool)
  {
    hide Ids;
    var i := Find(g.slots, name, 0);
    if name != "" && i < |g.slots| {
      NameTaken(g, pool, name);
      var named := g.slots[i := g.slots[i].(name := name)];
      if i >= g.live {
        GoLive(Group(named, g.live), pool, i, luck.fd, luck.staysOpen);
      }
    }
  }

  lemma GoLive(g: Group, pool: multiset<nat>, i: nat, fd: nat, open: bool)
    requires Valid(g, pool) && g.live <= i < |g.slots| && g.slots[i].name != ""
    ensures var started := g.slots[i := g.slots[i].(fd := fd, open := open)];
      Valid(Group(Swap(started, i, g.live), g.live + 1), pool)
  {
    hide NamesDistinct, NamedPrefix, Ids;
    var started := g.slots[i := g.slots[i].(fd := fd, open := open)];
    SameNames(g.slots, started);
    SwapIds(started, i, g.live);
    SwapGoLive(started, i, g.live);
  }

  /** The first dead connection may be unnamed only if the one that goes live is itself. */
  lemma SwapGoLive(slots: seq<Slot>, i: nat, live: nat)
    requires live <= i < |slots| && slots[i].name != "" && NamedPrefix(slots) && NamesDistinct(slots)
    ensures NamedPrefix(Swap(slots, i, live)) && NamesDistinct(Swap(slots, i, live))
  {
  }

  lemma {:induction false} SweepKeepsValid(g: Group, pool: multiset<nat>, i: nat)
    requires Valid(g, pool)
    ensures Valid(Sweep(g, i), pool)
    decreases g.live - i
  {
    hide Ids;
    if i < g.live {
      if !g.slots[i].open && g.slots[i].fd >= 0 {
        ReapOne(g, pool, i);
        SweepKeepsValid(Reaped(g, i), pool, i);
      } else {
        SweepKeepsValid(g, pool, i + 1);
      }
    }
  }

  lemma ReapOne(g: Group, pool: multiset<nat>, i: nat)
    requires Valid(g, pool) && i < g.live && !g.slots[i].open
    ensures Valid(Reaped(g, i), pool)
  {
    hide NamesDistinct, NamedPrefix, Swap, Ids;
    var reaped := g.slots[i := g.slots[i].(fd := -1)];
    SameNames(g.slots, reaped);
    SwapIds(reaped, i, g.live - 1);
    SwapNames(reaped, i, g.live - 1);
    ReapLive(g, i);
  }

  lemma SameNames(slots: seq<Slot>, slots': seq<Slot>)
    requires |slots'| == |slots|
    requires forall k :: 0 <= k < |slots| ==> slots'[k].name == slots[k].name && slots'[k].id == slots[k].id
    ensures Ids(slots') == Ids(slots)
    ensures NamedPrefix(slots) ==> NamedPrefix(slots')
    ensures NamesDistinct(slots) ==> NamesDistinct(slots')
  {
  }

  lemma ReapLive(g: Group, i: nat)
    requires LivePrefix(g) && i < g.live && !g.slots[i].open
    ensures LivePrefix(Group(Swap(g.slots[i := g.slots[i].(fd := -1)], i, g.live - 1), g.live - 1))
  {
  }

  lemma CloseKeepsValid(g: Group, pool: multiset<nat>, i: nat)
    requires Valid(g, pool) && i < |g.slots|
    ensures Valid(Close(g, i), pool)
  {
    assert Ids(Close(g, i).slots) == Ids(g.slots);
  }

  lemma StopKeepsValid(g: Group, pool: multiset<nat>)
    requires Valid(g, pool)
    ensures Valid(Stop(g), pool)
  {
    assert Ids(Stop(g).slots) == Ids(g.slots);
  }

  // ----- Runs

  datatype Event = LogOn(name: string, luck: Fortune) | PollControl | CloseOne(i: nat) | StopAll

  /** A step of the group; closing a connection that is not there does nothing. */
  function Next(g: Group, e: Event): Group
    requires g.live <= |g.slots|
  {
    match e
    case LogOn(name, luck) => Login(g, name, luck).0
    case PollControl => Sweep(g, 0)
    case CloseOne(i) => if i < |g.slots| then Close(g, i) else g
    case StopAll => Stop(g)
  }

  lemma NextKeepsValid(g: Group, pool: multiset<nat>, e: Event)
    requires Valid(g, pool)
    ensures Valid(Next(g, e), pool)
  {
    hide Valid, Login, Sweep, Close, Stop;
    match e
    case LogOn(name, luck) => LoginKeepsValid(g, pool, name, luck);
    case PollControl => SweepKeepsValid(g, pool, 0);
    case CloseOne(i) => if i < |g.slots| { CloseKeepsValid(g, pool, i); }
    case StopAll => StopKeepsValid(g, pool);
  }

  function Start(ids: seq<nat>): Group {
    Group(seq(|ids|, i requires 0 <= i < |ids| => Slot(ids[i], "", -1, false)), 0)
  }

  /** The group after a history of events, the latest last. */
  function History(ids: seq<nat>, events: seq<Event>): (g: Group)
    ensures Valid(g, multiset(ids))
    decreases |events|
  {
    if events == [] then
      assert Ids(Start(ids).slots) == ids;
      Start(ids)
    else
      var g := History(ids, events[..|events| - 1]);
      NextKeepsValid(g, multiset(ids), events[|events| - 1]);
      Next(g, events[|events| - 1])
  }

  /** Some connection bears the name and is live. */
  predicate LiveAs(g: Group, name: string)
    requires g.live <= |g.slots|
  {
    exists i :: 0 <= i < g.live && g.slots[i].name == name
  }

  /** Some connection bears the name, or none. */
  predicate HasPlace(g: Group, name: string) {
    exists i :: 0 <= i < |g.slots| && g.slots[i].name in {"", name}
  }

  /** What a login is answered, and why: nobody is live twice, a name is refused for lack of space only
      when every connection bears another name, and otherwise the first test that fails decides. */
  lemma LoginReply(g: Group, pool: multiset<nat>, name: string, luck: Fortune)
    requires Valid(g, pool)
    ensures var (g', reply) := Login(g, name, luck);
      var tried := name != "" && !LiveAs(g, name) && HasPlace(g, name);
      var sane := luck.fileOpens && luck.fileIsSane;
      && (reply.InvalidName? <==> name == "")
      && (reply.AlreadyLoggedOn? <==> name != "" && LiveAs(g, name))
      && (reply.Full? <==> name != "" && !HasPlace(g, name))
      && (reply.SystemError? <==> tried && !sane)
      && (reply.Mismatch? <==> tried && sane && !luck.windowsMatch)
      && (reply.ResponseLost? <==> tried && sane && luck.windowsMatch && !luck.responseSent)
      && (reply.LoggedOn? <==> tried && sane && luck.windowsMatch && luck.responseSent)
  {
    hide Ids;
    if name != "" {
      FindIsFirst(g.slots, name, 0);
    }
  }

  /** What a login leaves behind: one connection bears the name, even if the login fails; it has gone
      live if and only if it succeeds; and all others are what they were. */
  lemma LoginEffect(g: Group, pool: multiset<nat>, name: string, luck: Fortune) returns (i: nat)
    requires Valid(g, pool) && name != "" && HasPlace(g, name)
    ensures i < |g.slots| && g.slots[i].name in {"", name}
    ensures var (g', reply) := Login(g, name, luck);
      && |g'.slots| == |g.slots|
      && (reply.LoggedOn? ==>
            && g.live <= i && g'.live == g.live + 1
            && g'.slots[g.live] == Slot(g.slots[i].id, name, luck.fd, luck.staysOpen)
            && (i != g.live ==> g'.slots[i] == g.slots[g.live])
            && (forall k :: 0 <= k < |g.slots| && k != i && k != g.live ==> g'.slots[k] == g.slots[k]))
      && (!reply.LoggedOn? ==>
            && g'.live == g.live
            && g'.slots[i] == g.slots[i].(name := name)
            && (forall k :: 0 <= k < |g.slots| && k != i ==> g'.slots[k] == g.slots[k]))
  {
    hide Ids, NamedPrefix, NamesDistinct;
    FindIsFirst(g.slots, name, 0);
    i := Find(g.slots, name, 0);
  }

  /** The connection a login opens was completely closed before. */
  lemma OpensClosedConnection(g: Group, pool: multiset<nat>, name: string, luck: Fortune)
    requires Valid(g, pool) && Login(g, name, luck).1.LoggedOn?
    ensures var i := Find(g.slots, name, 0);
      && g.live <= i < |g.slots| && g.slots[i].fd < 0 && !g.slots[i].open
      && Login(g, name, luck).0.slots[g.live].id == g.slots[i].id
  {
    hide Ids;
  }

  /** Exactly the live connections are open. */
  ghost predicate OpenPrefix(g: Group) {
    g.live <= |g.slots| && forall k :: 0 <= k < |g.slots| ==> (g.slots[k].open <==> k < g.live)
  }

  /** After a sweep exactly the open connections are live. */
  lemma {:induction false} SweepReapsAll(g: Group, pool: multiset<nat>, i: nat)
    requires Valid(g, pool) && i <= g.live
    requires forall k :: 0 <= k < i ==> g.slots[k].open
    ensures |Sweep(g, i).slots| == |g.slots| && OpenPrefix(Sweep(g, i))
    decreases g.live - i
  {
    hide Ids, NamesDistinct, NamedPrefix, OpenPrefix;
    if i < g.live {
      if !g.slots[i].open {
        ReapOne(g, pool, i);
        SweepReapsAll(Reaped(g, i), pool, i);
      } else {
        SweepReapsAll(g, pool, i + 1);
      }
    } else {
      SweptOpen(g);
    }
  }

  lemma SweptOpen(g: Group)
    requires LivePrefix(g) && forall k :: 0 <= k < g.live ==> g.slots[k].open
    ensures OpenPrefix(g)
  {
  }

  /** ... and no connection that is open loses its descriptor or its name. */
  lemma {:induction false} SweepKeepsOpen(g: Group, pool: multiset<nat>, i: nat, s: Slot)
    requires Valid(g, pool) && s.open
    ensures s in g.slots <==> s in Sweep(g, i).slots
    decreases g.live - i
  {
    hide Ids, NamesDistinct, NamedPrefix;
    if i < g.live {
      if !g.slots[i].open && g.slots[i].fd >= 0 {
        ReapOne(g, pool, i);
        SameOpen(g.slots, i, g.live - 1, s);
        SweepKeepsOpen(Reaped(g, i), pool, i, s);
      } else {
        SweepKeepsOpen(g, pool, i + 1, s);
      }
    }
  }

  lemma SameOpen(slots: seq<Slot>, i: nat, j: nat, s: Slot)
    requires i < |slots| && j < |slots| && !slots[i].open && s.open
    ensures s in slots <==> s in Swap(slots[i := slots[i].(fd := -1)], i, j)
  {
    var reaped := slots[i := slots[i].(fd := -1)];
    var swapped := Swap(reaped, i, j);
    if s in slots {
      var k :| 0 <= k < |slots| && slots[k] == s;
      assert swapped[if k == j then i else k] == s;
    }
    if s in swapped {
      var k :| 0 <= k < |slots| && swapped[k] == s;
      assert slots[if k == i then j else if k == j then i else k] == s;
    }
  }

  /** What the sweep makes of one connection. */
  function Swept(s: Slot): Slot {
    if !s.open && s.fd >= 0 then s.(fd := -1) else s
  }

  /** Whatever becomes of its place, a connection keeps its name; it loses its descriptor if it was
      closed, and nothing if it was open. */
  lemma {:induction false} SweepEffect(g: Group, pool: multiset<nat>, i: nat, s: Slot)
    requires Valid(g, pool) && i <= g.live
    requires s in g.slots
    ensures s in Sweep(g, i).slots || (!s.open && s.fd >= 0 && s.(fd := -1) in Sweep(g, i).slots)
    decreases g.live - i
  {
    hide Ids, NamesDistinct, NamedPrefix;
    if i < g.live {
      if !g.slots[i].open && g.slots[i].fd >= 0 {
        ReapOne(g, pool, i);
        if s == g.slots[i] {
          ReapedIn(g, i);
          SweepEffect(Reaped(g, i), pool, i, s.(fd := -1));
        } else {
          OthersIn(g, i, s);
          SweepEffect(Reaped(g, i), pool, i, s);
        }
      } else {
        SweepEffect(g, pool, i + 1, s);
      }
    }
  }

  lemma ReapedIn(g: Group, i: nat)
    requires i < g.live <= |g.slots|
    ensures g.slots[i].(fd := -1) in Reaped(g, i).slots
  {
    assert Reaped(g, i).slots[g.live - 1] == g.slots[i].(fd := -1);
  }

  lemma OthersIn(g: Group, i: nat, s: Slot)
    requires i < g.live <= |g.slots| && s in g.slots && s != g.slots[i]
    ensures s in Reaped(g, i).slots
  {
    var k :| 0 <= k < |g.slots| && g.slots[k] == s;
    assert Reaped(g, i).slots[if k == g.live - 1 then i else k] == s;
  }

  /** After a sweep of the whole group every connection is what `Swept` says. */
  lemma SweepIsExact(g: Group, pool: multiset<nat>, s: Slot)
    requires Valid(g, pool) && s in g.slots
    ensures Swept(s) in Sweep(g, 0).slots
  {
    hide Ids, NamesDistinct, NamedPrefix, Sweep;
    SweepEffect(g, pool, 0, s);
    SweepReapsAll(g, pool, 0);
    SweepKeepsValid(g, pool, 0);
    if !s.open && s.fd >= 0 {
      NoneClosed(Sweep(g, 0), s);
    }
  }

  lemma NoneClosed(g: Group, s: Slot)
    requires LivePrefix(g) && OpenPrefix(g) && !s.open && s.fd >= 0
    ensures s !in g.slots
  {
  }

  /** After `Stop` every connection is as new: nameless, closed, without a descriptor, and none is
      live. */
  lemma StopForgets(g: Group)
    ensures Stop(g).live == 0 && |Stop(g).slots| == |g.slots|
    ensures forall i :: 0 <= i < |g.slots| ==> Stop(g).slots[i] == Slot(g.slots[i].id, "", -1, false)
  {
  }
}
