/** The connection objects of a group: whatever the table does with an entry, the object behind it
    can do, and then the entry is true of the object again. */
module GroupConnections {
  import opened ConnectionTable
  import opened Words
  import PtcpConn

  type Connection = PtcpConn.PTCPConnection

  /** The entry is true of the object. */
  ghost predicate Stands(c: Connection, s: Slot)
    reads c`sockfd, c`fdToClose
  {
    && (s.open <==> !c.IsClosed())
    && (s.fd == c.fdToClose || (s.fd < 0 && c.fdToClose < 0))
  }

  ghost predicate Distinct(pool: seq<Connection>, slots: seq<Slot>) {
    && (forall i, j :: 0 <= i < j < |pool| ==> pool[i] != pool[j])
    && (forall i, j :: 0 <= i < j < |slots| ==> slots[i].id != slots[j].id)
    && forall i :: 0 <= i < |slots| ==> slots[i].id < |pool|
  }

  /** Every entry of the group is true of the object in the pool that its number names. */
  ghost predicate Mirrors(pool: seq<Connection>, slots: seq<Slot>)
    reads pool
  {
    && Distinct(pool, slots)
    && forall i :: 0 <= i < |slots| ==> Stands(pool[slots[i].id], slots[i])
  }

  /** New objects stand behind a new group. */
  lemma StartMirrors(pool: seq<Connection>, ids: seq<nat>)
    requires forall i, j :: 0 <= i < j < |pool| ==> pool[i] != pool[j]
    requires forall i, j :: 0 <= i < j < |ids| ==> ids[i] != ids[j]
    requires forall i :: 0 <= i < |ids| ==> ids[i] < |pool|
    requires forall i :: 0 <= i < |pool| ==> pool[i].IsClosed() && pool[i].fdToClose < 0
    ensures Mirrors(pool, Start(ids).slots)
  {
  }

  lemma SwapMirrors(pool: seq<Connection>, slots: seq<Slot>, i: nat, j: nat)
    requires Mirrors(pool, slots) && i < |slots| && j < |slots|
    ensures Mirrors(pool, Swap(slots, i, j))
  {
  }

  /** The entries but the `i`-th are true of objects, none of which is the one behind that. */
  ghost predicate OthersStand(pool: seq<Connection>, slots: seq<Slot>, i: nat)
    requires i < |slots|
    reads pool
  {
    && Distinct(pool, slots)
    && forall k :: 0 <= k < |slots| && k != i ==> Stands(pool[slots[k].id], slots[k])
  }

  /** An entry is brought up to date. */
  lemma Updated(pool: seq<Connection>, slots: seq<Slot>, i: nat, s: Slot)
    requires i < |slots| && OthersStand(pool, slots, i) && s.id == slots[i].id && Stands(pool[s.id], s)
    ensures Mirrors(pool, slots[i := s])
  {
  }

  lemma EntryStands(pool: seq<Connection>, slots: seq<Slot>, i: nat)
    requires Mirrors(pool, slots) && i < |slots|
    ensures slots[i].id < |pool| && Stands(pool[slots[i].id], slots[i])
  {
  }

  /** The object behind the entry a login opens is closed, and its descriptor has been given back. */
  lemma FoundIsClosed(pool: seq<Connection>, ids: multiset<nat>, g: Group, name: string, luck: Fortune)
    requires Valid(g, ids) && Login(g, name, luck).1.LoggedOn? && Mirrors(pool, g.slots)
    ensures var i := Find(g.slots, name, 0);
      && g.live <= i < |g.slots| && g.slots[i].id < |pool|
      && pool[g.slots[i].id].IsClosed() && pool[g.slots[i].id].fdToClose < 0
  {
    hide Valid, Find;
    OpensClosedConnection(g, ids, name, luck);
    EntryStands(pool, g.slots, Find(g.slots, name, 0));
  }

  lemma LoginSlots(g: Group, name: string, luck: Fortune, open: bool)
    requires g.live <= Find(g.slots, name, 0) < |g.slots| && Login(g, name, luck).1.LoggedOn?
    ensures var i := Find(g.slots, name, 0);
      var s := g.slots[i].(name := name, fd := luck.fd, open := open);
      Login(g, name, luck.(staysOpen := open)).0.slots == Swap(g.slots[i := s], i, g.live)
  {
    var i := Find(g.slots, name, 0);
    var s := g.slots[i].(name := name, fd := luck.fd, open := open);
    assert g.slots[i := g.slots[i].(name := name)][i := s] == g.slots[i := s];
  }

  /** So it meets what `Open` demands, and afterwards the group's new entry is true of it. */
  method OpenFound(pool: seq<Connection>, ghost ids: multiset<nat>, g: Group, name: string, luck: Fortune,
                   remoteAckSeq: u32, now: int, script: seq<PtcpConn.SendResult>, c: Connection)
    returns (emitted: seq<byte>, g': Group)
    requires Valid(g, ids) && Login(g, name, luck).1.LoggedOn?
    requires Mirrors(pool, g.slots) && Find(g.slots, name, 0) < |g.slots|
    requires c == pool[g.slots[Find(g.slots, name, 0)].id] && c.Valid() && c.q.model.CanAck(remoteAckSeq)
    modifies c, c.q
    ensures c.Valid() && c.fdToClose == luck.fd
    ensures g' == Login(g, name, luck.(staysOpen := !c.IsClosed())).0 && Mirrors(pool, g'.slots)
  {
    hide Valid, Find, Swap, Login, PtcpConn.PTCPConnection.RxValid, PtcpConn.PTCPConnection.Valid;
    FoundIsClosed(pool, ids, g, name, luck);
    var i := Find(g.slots, name, 0);
    emitted := c.Open(luck.fd, remoteAckSeq, now, script);
    var luck' := luck.(staysOpen := !c.IsClosed());
    g' := Login(g, name, luck').0;
    var s := g.slots[i].(name := name, fd := luck.fd, open := luck'.staysOpen);
    Updated(pool, g.slots, i, s);
    LoginSlots(g, name, luck, !c.IsClosed());
    SwapMirrors(pool, g.slots[i := s], i, g.live);
  }

  /** A connection that closes itself. */
  method CloseFound(pool: seq<Connection>, g: Group, i: nat, c: Connection) returns (g': Group)
    requires Mirrors(pool, g.slots) && i < |g.slots| && c == pool[g.slots[i].id]
    modifies c`sockfd
    ensures g' == Close(g, i) && Mirrors(pool, g'.slots)
  {
    EntryStands(pool, g.slots, i);
    c.RequestClose();
    Updated(pool, g.slots, i, g.slots[i].(open := false));
    g' := Close(g, i);
  }

  /** One step of the sweep: `TryCloseFd` answers true exactly for the connections the table reaps. */
  method ReapFound(pool: seq<Connection>, g: Group, i: nat, c: Connection) returns (reaped: bool, g': Group)
    requires Mirrors(pool, g.slots) && i < g.live <= |g.slots| && c == pool[g.slots[i].id]
    modifies c`fdToClose
    ensures reaped <==> !g.slots[i].open && g.slots[i].fd >= 0
    ensures g' == (if reaped then Reaped(g, i) else g) && Mirrors(pool, g'.slots)
  {
    hide Swap;
    EntryStands(pool, g.slots, i);
    reaped := c.TryCloseFd();
    if reaped {
      var s := g.slots[i].(fd := -1);
      Updated(pool, g.slots, i, s);
      SwapMirrors(pool, g.slots[i := s], i, g.live - 1);
      g' := Reaped(g, i);
    } else {
      g' := g;
    }
  }

  /** The whole sweep. */
  method SweepFound(pool: seq<Connection>, g: Group) returns (g': Group)
    requires Mirrors(pool, g.slots) && g.live <= |g.slots|
    modifies pool
    ensures g' == Sweep(g, 0) && Mirrors(pool, g'.slots)
  {
    hide Mirrors, Reaped;
    g' := g;
    var i := 0;
    while i < g'.live
      invariant i <= g'.live <= |g'.slots| && Mirrors(pool, g'.slots)
      invariant Sweep(g', i) == Sweep(g, 0)
      decreases g'.live - i
    {
      EntryStands(pool, g'.slots, i);
      var reaped;
      reaped, g' := ReapFound(pool, g', i, pool[g'.slots[i].id]);
      if !reaped {
        i := i + 1;
      }
    }
  }

  /** `Release`, as far as the connection is concerned. */
  method ReleaseFound(pool: seq<Connection>, slots: seq<Slot>, i: nat, c: Connection) returns (slots': seq<Slot>)
    requires Mirrors(pool, slots) && i < |slots| && c == pool[slots[i].id]
    modifies c`sockfd, c`fdToClose
    ensures slots' == slots[i := Released(slots[i])] && Mirrors(pool, slots')
  {
    EntryStands(pool, slots, i);
    c.RequestClose();
    var _ := c.TryCloseFd();
    Updated(pool, slots, i, Released(slots[i]));
    slots' := slots[i := Released(slots[i])];
  }

  /** Stopping: every connection is released. */
  method StopFound(pool: seq<Connection>, g: Group) returns (g': Group)
    requires Mirrors(pool, g.slots)
    modifies pool
    ensures g' == Stop(g) && Mirrors(pool, g'.slots)
  {
    hide Mirrors;
    var slots := g.slots;
    for i := 0 to |g.slots|
      invariant |slots| == |g.slots| && Mirrors(pool, slots)
      invariant forall k :: 0 <= k < i ==> slots[k] == Released(g.slots[k])
      invariant forall k :: i <= k < |g.slots| ==> slots[k] == g.slots[k]
    {
      EntryStands(pool, slots, i);
      slots := ReleaseFound(pool, slots, i, pool[slots[i].id]);
    }
    g' := Group(slots, 0);
    assert slots == Stop(g).slots;
  }
}
