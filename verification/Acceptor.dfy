/** The slots in which accepted connections wait for their login request. */
module Acceptor {

  /** What the poll finds in an occupied slot: nothing yet, a login that succeeds and takes the
      descriptor over, or anything else. */
  datatype Found = Nothing | LoggedIn | Rejected

  /** How often the descriptor `fd` occurs. */
  function Times(s: seq<int>, fd: nat): nat {
    if s == [] then 0 else Times(s[..|s| - 1], fd) + if s[|s| - 1] == fd then 1 else 0
  }

  predicate Vacant(slots: seq<int>) {
    exists i :: 0 <= i < |slots| && slots[i] < 0
  }

  lemma TimesSnoc(s: seq<int>, v: int, fd: nat)
    ensures Times(s + [v], fd) == Times(s, fd) + if v == fd then 1 else 0
  {
  }

  /** A descriptor put into a free slot is held in addition to the others. */
  lemma {:induction false} TimesFill(slots: seq<int>, i: nat, v: nat, fd: nat)
    requires i < |slots| && slots[i] < 0
    ensures Times(slots[i := v], fd) == Times(slots, fd) + if v == fd then 1 else 0
    decreases |slots|
  {
    var n := |slots| - 1;
    if i < n {
      TimesFill(slots[..n], i, v, fd);
      assert slots[i := v][..n] == slots[..n][i := v];
    } else {
      assert slots[i := v][..n] == slots[..n];
    }
  }

  lemma TimesNone(fd: nat)
    ensures Times([], fd) == 0
  {
  }

  /** What a slot holds after its visit: the descriptor goes away unless there is nothing to be read
      from it yet. */
  function Stay(fd: int, found: Found): int {
    if fd < 0 || found.Nothing? then fd else -1
  }

  /** The slots after the first `n` have been visited. */
  function Remaining(slots: seq<int>, found: seq<Found>, n: nat): (r: seq<int>)
    requires n <= |slots| == |found|
    ensures |r| == |slots|
  {
    seq(|slots|, i requires 0 <= i < |slots| => if i < n then Stay(slots[i], found[i]) else slots[i])
  }

  lemma RemainingNone(slots: seq<int>, found: seq<Found>)
    requires |slots| == |found|
    ensures Remaining(slots, found, 0) == slots
  {
  }

  lemma RemainingStep(slots: seq<int>, found: seq<Found>, n: nat)
    requires n < |slots| == |found|
    ensures Remaining(slots, found, n)[n] == slots[n]
    ensures Remaining(slots, found, n + 1) == Remaining(slots, found, n)[n := Stay(slots[n], found[n])]
  {
  }

  /** The descriptors among the first `n` slots for which `what` is found. */
  function Leaving(slots: seq<int>, found: seq<Found>, n: nat, what: Found): seq<int>
    requires n <= |slots| == |found|
  {
    if n == 0 then []
    else
      var rest := Leaving(slots, found, n - 1, what);
      if slots[n - 1] >= 0 && found[n - 1] == what then rest + [slots[n - 1]] else rest
  }

  /** Exactly the descriptors for which `what` is found leave that way. */
  lemma {:induction false} LeavingExact(slots: seq<int>, found: seq<Found>, n: nat, what: Found, fd: int)
    requires n <= |slots| == |found|
    ensures fd in Leaving(slots, found, n, what) <==>
      exists i :: 0 <= i < n && slots[i] == fd && fd >= 0 && found[i] == what
  {
    if n > 0 {
      LeavingExact(slots, found, n - 1, what, fd);
      var last := slots[n - 1] == fd && fd >= 0 && found[n - 1] == what;
      assert fd in Leaving(slots, found, n, what) <==> (fd in Leaving(slots, found, n - 1, what) || last);
    }
  }

  lemma LeavingAll(slots: seq<int>, found: seq<Found>, what: Found)
    requires |slots| == |found|
    ensures forall i :: 0 <= i < |slots| && slots[i] >= 0 && found[i] == what ==>
      slots[i] in Leaving(slots, found, |slots|, what)
    ensures forall fd :: fd in Leaving(slots, found, |slots|, what) ==>
      exists i :: 0 <= i < |slots| && slots[i] == fd && found[i] == what
  {
    forall i | 0 <= i < |slots| && slots[i] >= 0 && found[i] == what
      ensures slots[i] in Leaving(slots, found, |slots|, what)
    {
      LeavingExact(slots, found, |slots|, what, slots[i]);
    }
    forall fd | fd in Leaving(slots, found, |slots|, what)
      ensures exists i :: 0 <= i < |slots| && slots[i] == fd && found[i] == what
    {
      LeavingExact(slots, found, |slots|, what, fd);
    }
  }

  /** No descriptor is lost or given away twice: each one held before the poll is waiting still, or
      taken over by a connection, or closed. */
  lemma {:induction false} DescriptorsConserved(slots: seq<int>, found: seq<Found>, n: nat, fd: nat)
    requires n <= |slots| == |found|
    ensures Times(slots[..n], fd) == Times(Remaining(slots, found, n)[..n], fd)
      + Times(Leaving(slots, found, n, LoggedIn), fd) + Times(Leaving(slots, found, n, Rejected), fd)
  {
    hide Times, Remaining;
    if n == 0 {
      assert slots[..0] == [] && Remaining(slots, found, 0)[..0] == [];
      TimesNone(fd);
    } else {
      var k := n - 1;
      DescriptorsConserved(slots, found, k, fd);
      var r, r' := Remaining(slots, found, k), Remaining(slots, found, n);
      RemainingStep(slots, found, k);
      assert r'[..n] == r[..k] + [r'[k]];
      assert slots[..n] == slots[..k] + [slots[k]];
      TimesSnoc(r[..k], r'[k], fd);
      TimesSnoc(slots[..k], slots[k], fd);
      TimesSnoc(Leaving(slots, found, k, LoggedIn), slots[k], fd);
      TimesSnoc(Leaving(slots, found, k, Rejected), slots[k], fd);
    }
  }

  /** Every descriptor that was held before, or has just been accepted, is held still, taken over or
      closed, and as often. */
  ghost predicate Accounted(before: seq<int>, accepted: seq<int>, after: seq<int>, taken: seq<int>, closed: seq<int>) {
    forall fd: nat ::
      Times(before, fd) + Times(accepted, fd) == Times(after, fd) + Times(taken, fd) + Times(closed, fd)
  }

  lemma TimesOne(v: int, fd: nat)
    ensures Times([v], fd) == if v == fd then 1 else 0
  {
    assert [v][..0] == [];
  }

  lemma SweepConserves(held: seq<int>, found: seq<Found>, fd: nat)
    requires |held| == |found|
    ensures Times(held, fd) == Times(Remaining(held, found, |held|), fd)
      + Times(Leaving(held, found, |held|, LoggedIn), fd) + Times(Leaving(held, found, |held|, Rejected), fd)
  {
    hide Times, Remaining, Leaving;
    var r := Remaining(held, found, |held|);
    assert held[..|held|] == held && r[..|held|] == r;
    DescriptorsConserved(held, found, |held|, fd);
  }

  /** At most one descriptor has been accepted, into a free slot. */
  ghost predicate Filled(before: seq<int>, held: seq<int>, accepted: seq<int>, slot: nat) {
    if accepted == [] then held == before
    else
      && |accepted| == 1 && accepted[0] >= 0
      && slot < |before| && before[slot] < 0 && held == before[slot := accepted[0]]
  }

  lemma AcceptConserves(before: seq<int>, held: seq<int>, accepted: seq<int>, slot: nat, fd: nat)
    requires Filled(before, held, accepted, slot)
    ensures Times(before, fd) + Times(accepted, fd) == Times(held, fd)
  {
    hide Times;
    if accepted == [] {
      TimesNone(fd);
    } else {
      TimesFill(before, slot, accepted[0], fd);
      TimesOne(accepted[0], fd);
      assert accepted == [accepted[0]];
    }
  }

  /** The same for the whole poll, the descriptor just accepted included. */
  lemma PollConserves(before: seq<int>, held: seq<int>, accepted: seq<int>, slot: nat, found: seq<Found>)
    requires |held| == |found|
    requires Filled(before, held, accepted, slot)
    ensures Accounted(before, accepted, Remaining(held, found, |held|),
      Leaving(held, found, |held|, LoggedIn), Leaving(held, found, |held|, Rejected))
  {
    hide Times, Remaining, Leaving;
    forall fd: nat
      ensures Times(before, fd) + Times(accepted, fd) == Times(Remaining(held, found, |held|), fd)
        + Times(Leaving(held, found, |held|, LoggedIn), fd) + Times(Leaving(held, found, |held|, Rejected), fd)
    {
      AcceptConserves(before, held, accepted, slot, fd);
      SweepConserves(held, found, fd);
    }
  }

  class Slots {
    const fds: array<int>
    var avail: nat

    /** `avail` is a free slot, or the number of slots if and only if there is none. */
    ghost predicate Valid()
      reads this, fds
    {
      && avail <= fds.Length
      && (avail < fds.Length ==> fds[avail] < 0)
      && (avail == fds.Length ==> !Vacant(fds[..]))
    }

    constructor (n: nat)
      ensures Valid() && fds.Length == n && forall i :: 0 <= i < n ==> fds[i] < 0
    {
      fds := new int[n](_ => -1);
      avail := 0;
    }

    /** One connection is accepted if there is a free slot; it never replaces another. */
    method Accept(fd: int) returns (accepted: bool, ghost slot: nat)
      requires Valid()
      modifies this, fds
      ensures accepted <==> old(Vacant(fds[..])) && fd >= 0
      ensures accepted ==> slot < fds.Length && old(fds[slot]) < 0 && fds[..] == old(fds[..])[slot := fd]
      ensures !accepted ==> fds[..] == old(fds[..])
      ensures avail < fds.Length ==> fds[avail] < 0
      ensures avail <= fds.Length
    {
      accepted, slot := false, avail;
      if avail != fds.Length {
        assert fds[..][avail] < 0;
        if fd >= 0 {
          fds[avail] := fd;
          avail := fds.Length;
          accepted := true;
        }
      }
    }

    /** The visit to one slot. */
    method Visit(i: nat, found: Found) returns (taken: seq<int>, closed: seq<int>)
      requires i < fds.Length
      modifies this, fds
      ensures fds[..] == old(fds[..])[i := Stay(old(fds[i]), found)]
      ensures taken == if old(fds[i]) >= 0 && found.LoggedIn? then [old(fds[i])] else []
      ensures closed == if old(fds[i]) >= 0 && found.Rejected? then [old(fds[i])] else []
      ensures avail == if fds[i] < 0 then i else old(avail)
    {
      taken, closed := [], [];
      if fds[i] >= 0 {
        if found.Nothing? {
          return;
        }
        if found.LoggedIn? {
          taken := [fds[i]];
        } else {
          closed := [fds[i]];
        }
        fds[i] := -1;
      }
      avail := i;
    }

    /** One poll: at most one connection is accepted, then what is found in each slot decides what
        becomes of its descriptor. */
    method Poll(fd: int, found: seq<Found>)
      returns (accepted: bool, ghost slot: nat, ghost held: seq<int>, taken: seq<int>, closed: seq<int>)
      requires Valid() && |found| == fds.Length
      modifies this, fds
      ensures Valid() && |held| == fds.Length
      ensures accepted <==> old(Vacant(fds[..])) && fd >= 0
      ensures accepted ==> slot < fds.Length && old(fds[slot]) < 0 && held == old(fds[..])[slot := fd]
      ensures !accepted ==> held == old(fds[..])
      ensures fds[..] == Remaining(held, found, |held|)
      ensures taken == Leaving(held, found, |held|, LoggedIn) && closed == Leaving(held, found, |held|, Rejected)
      ensures Accounted(old(fds[..]), if accepted then [fd] else [], fds[..], taken, closed)
      ensures forall i :: 0 <= i < fds.Length ==>
        fds[i] == if held[i] < 0 || found[i].Nothing? then held[i] else -1
      ensures forall i :: 0 <= i < fds.Length && held[i] >= 0 ==>
        (found[i].LoggedIn? ==> held[i] in taken) && (found[i].Rejected? ==> held[i] in closed)
      ensures forall d :: d in taken ==> exists i :: 0 <= i < fds.Length && held[i] == d && found[i].LoggedIn?
      ensures forall d :: d in closed ==> exists i :: 0 <= i < fds.Length && held[i] == d && found[i].Rejected?
    {
      hide Times, Leaving;
      accepted, slot := Accept(fd);
      held := fds[..];
      taken, closed := VisitAll(held, found);
      PollConserves(old(fds[..]), held, if accepted then [fd] else [], slot, found);
      LeavingAll(held, found, LoggedIn);
      LeavingAll(held, found, Rejected);
      assert forall i :: 0 <= i < fds.Length ==> fds[i] == fds[..][i];
    }

    /** The loop over the slots. */
    method VisitAll(ghost held: seq<int>, found: seq<Found>) returns (taken: seq<int>, closed: seq<int>)
      requires held == fds[..] && |found| == fds.Length && avail <= fds.Length
      requires avail < fds.Length ==> fds[avail] < 0
      modifies this, fds
      ensures Valid()
      ensures fds[..] == Remaining(held, found, |held|)
      ensures taken == Leaving(held, found, |held|, LoggedIn) && closed == Leaving(held, found, |held|, Rejected)
    {
      hide Remaining;
      taken, closed := [], [];
      RemainingNone(held, found);
      var i := 0;
      while i < fds.Length
        invariant 0 <= i <= fds.Length && avail <= fds.Length
        invariant fds[..] == Remaining(held, found, i)
        invariant taken == Leaving(held, found, i, LoggedIn) && closed == Leaving(held, found, i, Rejected)
        invariant avail < fds.Length ==> fds[avail] < 0
        invariant avail == fds.Length ==> forall k :: 0 <= k < i ==> fds[..][k] >= 0
      {
        RemainingStep(held, found, i);
        var t, c := Visit(i, found[i]);
        taken, closed := taken + t, closed + c;
        i := i + 1;
      }
    }
  }
}
