/** The connection group of the server, in place: an array of connection objects whose first
    `live` entries are the live ones. */
module ServerGroup {
  import opened ConnectionTable

  class Connection {
    const id: nat
    var name: string
    var fd: int
    var open: bool

    constructor (id: nat)
      ensures this.id == id && name == "" && fd == -1 && !open
    {
      this.id, name, fd, open := id, "", -1, false;
    }

    ghost function View(): Slot
      reads this
    {
      Slot(id, name, fd, open)
    }

    /** Closes the descriptor of a connection that has closed itself. */
    method TryCloseFd() returns (closed: bool)
      modifies this
      ensures closed <==> !open && old(fd) >= 0
      ensures View() == if closed then old(View()).(fd := -1) else old(View())
    {
      if !open && fd >= 0 {
        fd := -1;
        return true;
      }
      return false;
    }

    method Release()
      modifies this
      ensures View() == Released(old(View()))
    {
      name, open, fd := "", false, -1;
    }
  }

  class ConnectionGroup {
    const conns: array<Connection>
    var live: nat

    ghost predicate Valid()
      reads this, conns
    {
      && live <= conns.Length
      && forall i, j :: 0 <= i < j < conns.Length ==> conns[i] != conns[j]
    }

    ghost function Objects(): set<Connection>
      reads conns
    {
      set c | c in conns[..]
    }

    ghost function Slots(): (r: seq<Slot>)
      reads conns, Objects()
      ensures |r| == conns.Length && forall i :: 0 <= i < conns.Length ==> r[i] == conns[i].View()
    {
      SlotsUpTo(conns.Length)
    }

    ghost function SlotsUpTo(n: nat): (r: seq<Slot>)
      requires n <= conns.Length
      reads conns, Objects()
      ensures |r| == n && forall i :: 0 <= i < n ==> r[i] == conns[i].View()
    {
      if n == 0 then [] else SlotsUpTo(n - 1) + [conns[n - 1].View()]
    }

    ghost function View(): Group
      reads this, conns, Objects()
    {
      Group(Slots(), live)
    }

    constructor (pool: array<Connection>)
      requires forall i, j :: 0 <= i < j < pool.Length ==> pool[i] != pool[j]
      ensures Valid() && conns == pool && live == 0
    {
      conns, live := pool, 0;
    }

    method SwapEntries(i: nat, j: nat)
      requires Valid() && i < conns.Length && j < conns.Length
      modifies conns
      ensures Valid() && Objects() == old(Objects())
      ensures Slots() == Swap(old(Slots()), i, j)
    {
      conns[i], conns[j] := conns[j], conns[i];
      forall c
        ensures c in Objects() <==> c in old(Objects())
      {
        if c in old(Objects()) {
          var k :| 0 <= k < conns.Length && old(conns[..])[k] == c;
          assert conns[if k == i then j else if k == j then i else k] == c;
        }
      }
    }

    /** Login: the first connection with the name, or never used, is taken; if every test succeeds
        it is opened and swapped to the end of the live part. */
    method HandleLogin(name: string, luck: Fortune) returns (reply: Reply)
      requires Valid()
      modifies this, conns, Objects()
      ensures Valid() && Objects() == old(Objects())
      ensures View() == Login(old(View()), name, luck).0 && reply == Login(old(View()), name, luck).1
    {
      if name == "" {
        return InvalidName;
      }
      var i := 0;
      while i < conns.Length
        invariant 0 <= i <= conns.Length
        invariant Valid() && Objects() == old(Objects()) && View() == old(View())
        invariant Find(Slots(), name, 0) == Find(Slots(), name, i)
      {
        if conns[i].name == "" || conns[i].name == name {
          reply := LoginAt(i, name, luck);
          return;
        }
        i := i + 1;
      }
      return Full;
    }

    /** The body of the loop for the matching connection. */
    method LoginAt(i: nat, name: string, luck: Fortune) returns (reply: Reply)
      requires Valid() && name != "" && i < conns.Length && Find(Slots(), name, 0) == i
      modifies this, conns, Objects()
      ensures Valid() && Objects() == old(Objects())
      ensures View() == Login(old(View()), name, luck).0 && reply == Login(old(View()), name, luck).1
    {
      hide Swap, NamesDistinct, NamedPrefix, Find, Tested, Opened;
      FindIsFirst(Slots(), name, 0);
      TakeName(i, name);
      if i < live {
        reply := AlreadyLoggedOn;
      } else {
        reply := Admit(i, luck);
      }
    }

    /** The connection that has the name is opened if every test succeeds. */
    method Admit(i: nat, luck: Fortune) returns (reply: Reply)
      requires Valid() && live <= i < conns.Length
      modifies this, conns, Objects()
      ensures Valid() && Objects() == old(Objects())
      ensures reply == Tested(luck)
      ensures reply.LoggedOn? ==> View() == Opened(old(View()), i, luck)
      ensures !reply.LoggedOn? ==> View() == old(View())
    {
      hide Swap;
      reply := Verdict(luck);
      if reply.LoggedOn? {
        OpenAt(i, luck);
      }
    }

    /** An unused connection gets the name; the other that can be found bears it already. */
    method TakeName(i: nat, name: string)
      requires Valid() && i < conns.Length && conns[i].name in {"", name}
      modifies conns[i]
      ensures Slots() == old(Slots())[i := old(Slots())[i].(name := name)]
    {
      if conns[i].name == "" {
        conns[i].name := name;
      }
    }

    /** The tests of the login procedure, in order. */
    method Verdict(luck: Fortune) returns (reply: Reply)
      ensures reply == Tested(luck)
    {
      if !luck.fileOpens || !luck.fileIsSane {
        return SystemError;
      }
      if !luck.windowsMatch {
        return Mismatch;
      }
      if !luck.responseSent {
        return ResponseLost;
      }
      return LoggedOn;
    }

    method OpenAt(i: nat, luck: Fortune)
      requires Valid() && live <= i < conns.Length
      modifies this, conns, Objects()
      ensures Valid() && Objects() == old(Objects()) && live == old(live) + 1
      ensures Slots() == Swap(old(Slots())[i := old(Slots())[i].(fd := luck.fd, open := luck.staysOpen)], i, old(live))
    {
      conns[i].fd, conns[i].open := luck.fd, luck.staysOpen;
      assert Slots() == old(Slots())[i := conns[i].View()];
      SwapEntries(i, live);
      live := live + 1;
    }

    /** The sweep of the control poll. */
    method PollControl()
      requires Valid()
      modifies this, conns, Objects()
      ensures Valid() && Objects() == old(Objects())
      ensures View() == Sweep(old(View()), 0)
    {
      hide Reaped;
      var i := 0;
      while i < live
        invariant Valid() && Objects() == old(Objects()) && i <= live
        invariant Sweep(View(), i) == Sweep(old(View()), 0)
        decreases live - i
      {
        var reaped := SweepOne(i);
        if !reaped {
          i := i + 1;
        }
      }
    }

    method SweepOne(i: nat) returns (reaped: bool)
      requires Valid() && i < live
      modifies this, conns, Objects()
      ensures Valid() && Objects() == old(Objects())
      ensures reaped <==> !old(Slots())[i].open && old(Slots())[i].fd >= 0
      ensures View() == if reaped then Reaped(old(View()), i) else old(View())
    {
      hide Reaped;
      reaped := CloseAt(i);
      if reaped {
        RetireAt(i);
        assert View() == Reaped(old(View()), i) by { ReapedSlots(old(View()), i); }
      }
    }

    /** The connection at `i` leaves the live part. */
    method RetireAt(i: nat)
      requires Valid() && i < live
      modifies this, conns
      ensures Valid() && Objects() == old(Objects()) && live == old(live) - 1
      ensures Slots() == Swap(old(Slots()), i, live)
    {
      hide Swap;
      live := live - 1;
      SwapEntries(i, live);
    }

    method CloseAt(i: nat) returns (closed: bool)
      requires Valid() && i < conns.Length
      modifies conns[i]
      ensures closed <==> !old(Slots())[i].open && old(Slots())[i].fd >= 0
      ensures Slots() == if closed then old(Slots())[i := old(Slots())[i].(fd := -1)] else old(Slots())
    {
      closed := conns[i].TryCloseFd();
    }

    /** `Stop` releases every connection. */
    method StopAll()
      requires Valid()
      modifies this, Objects()
      ensures Valid() && View() == Stop(old(View()))
    {
      var i := 0;
      while i < conns.Length
        invariant 0 <= i <= conns.Length && Valid()
        invariant forall k :: 0 <= k < i ==> conns[k].View() == Released(old(conns[k].View()))
        invariant forall k :: i <= k < conns.Length ==> conns[k].View() == old(conns[k].View())
      {
        conns[i].Release();
        i := i + 1;
      }
      live := 0;
      assert Slots() == Stop(old(View())).slots;
    }

    /** A connection closes itself. */
    method CloseOne(i: nat)
      requires Valid()
      modifies Objects()
      ensures Valid() && View() == if i < conns.Length then Close(old(View()), i) else old(View())
    {
      if i < conns.Length {
        conns[i].open := false;
        assert Slots() == old(Slots())[i := conns[i].View()];
      } else {
        assert Slots() == old(Slots());
      }
    }

    /** Any event, in place, is the table's. */
    method Execute(e: Event)
      requires Valid()
      modifies this, conns, Objects()
      ensures Valid() && View() == Next(old(View()), e)
    {
      hide Login, Sweep, Close, Stop;
      match e
      case LogOn(name, luck) =>
        var _ := HandleLogin(name, luck);
      case PollControl => PollControl();
      case CloseOne(i) => CloseOne(i);
      case StopAll => StopAll();
    }
  }

  lemma ReapedSlots(g: Group, i: nat)
    requires i < g.live <= |g.slots|
    ensures Reaped(g, i) == Group(Swap(g.slots[i := g.slots[i].(fd := -1)], i, g.live - 1), g.live - 1)
  {
  }
}
