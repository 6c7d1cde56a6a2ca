/** The "eventually" gate: finalizer registrations that can be held back until
    a test says they may proceed.

    The global `unblocked` holds a channel. While that channel is closed,
    SetFinalizer registers at once; while it is open, the registration waits
    in a background goroutine until the channel is closed. Channels are
    modelled by identifiers, and each waiting goroutine by a `Parked` record
    naming the channel it waits on. Closing a channel is the explicit step at
    which every registration waiting on it takes effect. */
module Eventually {
  import opened GoRuntime

  /** A registration held in a background goroutine until channel `chan` closes. */
  datatype Parked<T> = Parked(reg: T, chan: nat)

  /** The registrations carried by a list of waiting goroutines, in order. */
  function Regs<T>(ps: seq<Parked<T>>): (r: seq<T>)
    ensures |r| == |ps|
  {
    if ps == [] then [] else [ps[0].reg] + Regs(ps[1..])
  }

  /** The goroutines of `ps` that wait on channel `c`, in order. */
  function WaitingOn<T>(ps: seq<Parked<T>>, c: nat): (r: seq<Parked<T>>)
    ensures forall i :: 0 <= i < |r| ==> r[i].chan == c
    ensures |r| <= |ps|
  {
    if ps == [] then []
    else (if ps[0].chan == c then [ps[0]] else []) + WaitingOn(ps[1..], c)
  }

  /** The goroutines of `ps` that wait on some channel other than `c`, in order. */
  function NotWaitingOn<T>(ps: seq<Parked<T>>, c: nat): (r: seq<Parked<T>>)
    ensures forall i :: 0 <= i < |r| ==> r[i].chan != c
    ensures |r| <= |ps|
  {
    if ps == [] then []
    else (if ps[0].chan != c then [ps[0]] else []) + NotWaitingOn(ps[1..], c)
  }

  /** Every goroutine of `ps` waits on a channel that has been made and is not
      among `closed`. */
  ghost predicate WaitOnOpen<T>(ps: seq<Parked<T>>, closed: set<nat>, made: nat) {
    forall i :: 0 <= i < |ps| ==> ps[i].chan < made && ps[i].chan !in closed
  }

  /** The goroutines left waiting after channel `c` closes still wait on open channels. */
  lemma {:induction false} NotWaitingOnStaysOpen<T>(ps: seq<Parked<T>>, c: nat, closed: set<nat>, made: nat)
    requires WaitOnOpen(ps, closed, made)
    ensures WaitOnOpen(NotWaitingOn(ps, c), closed + {c}, made)
  {
    if ps != [] {
      NotWaitingOnStaysOpen(ps[1..], c, closed, made);
      var other := if ps[0].chan != c then [ps[0]] else [];
      assert NotWaitingOn(ps, c) == other + NotWaitingOn(ps[1..], c);
    }
  }

  lemma {:induction false} RegsAppend<T>(ps: seq<Parked<T>>, qs: seq<Parked<T>>)
    ensures Regs(ps + qs) == Regs(ps) + Regs(qs)
  {
    if ps != [] {
      assert (ps + qs)[1..] == ps[1..] + qs;
      RegsAppend(ps[1..], qs);
    } else {
      assert ps + qs == qs;
    }
  }

  /** Closing channel `c` splits the waiting goroutines without losing or
      duplicating any registration. */
  lemma {:induction false} SplitPreservesRegs<T>(ps: seq<Parked<T>>, c: nat)
    ensures multiset(Regs(ps)) == multiset(Regs(WaitingOn(ps, c))) + multiset(Regs(NotWaitingOn(ps, c)))
  {
    if ps != [] {
      var rest := ps[1..];
      SplitPreservesRegs(rest, c);
      var head := if ps[0].chan == c then [ps[0]] else [];
      var other := if ps[0].chan != c then [ps[0]] else [];
      assert WaitingOn(ps, c) == head + WaitingOn(rest, c);
      assert NotWaitingOn(ps, c) == other + NotWaitingOn(rest, c);
      RegsAppend(head, WaitingOn(rest, c));
      RegsAppend(other, NotWaitingOn(rest, c));
      assert Regs(ps) == [ps[0].reg] + Regs(rest);
      assert multiset(Regs(head)) + multiset(Regs(other)) == multiset{ps[0].reg};
    }
  }

  /** Parking one more registration on an open channel keeps the account of
      requests against registrations and waiting goroutines. */
  lemma ParkKeepsAccount<T>(requested: seq<T>, registered: seq<T>, ps: seq<Parked<T>>,
                            waiter: Parked<T>, closed: set<nat>, made: nat)
    requires multiset(requested) == multiset(registered) + multiset(Regs(ps))
    requires WaitOnOpen(ps, closed, made) && waiter.chan < made && waiter.chan !in closed
    ensures multiset(requested + [waiter.reg]) == multiset(registered) + multiset(Regs(ps + [waiter]))
    ensures WaitOnOpen(ps + [waiter], closed, made)
  {
    RegsAppend(ps, [waiter]);
    assert Regs([waiter]) == [waiter.reg];
    forall i | 0 <= i < |ps + [waiter]|
      ensures (ps + [waiter])[i].chan < made && (ps + [waiter])[i].chan !in closed
    {
      if i < |ps| {
        assert (ps + [waiter])[i] == ps[i];
      }
    }
  }

  /** Registering at once keeps the account of requests. */
  lemma RegisterKeepsAccount<T>(requested: seq<T>, registered: seq<T>, ps: seq<Parked<T>>, reg: T)
    requires multiset(requested) == multiset(registered) + multiset(Regs(ps))
    ensures multiset(requested + [reg]) == multiset(registered + [reg]) + multiset(Regs(ps))
  {
  }

  /** Closing channel `c` moves the registrations waiting on it to the
      registered list and keeps the account of requests. */
  lemma ReleaseKeepsAccount<T>(requested: seq<T>, registered: seq<T>, ps: seq<Parked<T>>,
                               c: nat, closed: set<nat>, made: nat)
    requires multiset(requested) == multiset(registered) + multiset(Regs(ps))
    requires WaitOnOpen(ps, closed, made)
    ensures multiset(requested)
            == multiset(registered + Regs(WaitingOn(ps, c))) + multiset(Regs(NotWaitingOn(ps, c)))
    ensures WaitOnOpen(NotWaitingOn(ps, c), closed + {c}, made)
  {
    NotWaitingOnStaysOpen(ps, c, closed, made);
    SplitPreservesRegs(ps, c);
  }

  /** When every goroutine waits on `c` (a single blocked epoch), closing `c`
      releases all of them, in order. */
  lemma {:induction false} SingleEpochReleasesAll<T>(ps: seq<Parked<T>>, c: nat)
    requires forall i :: 0 <= i < |ps| ==> ps[i].chan == c
    ensures WaitingOn(ps, c) == ps
    ensures NotWaitingOn(ps, c) == []
  {
    if ps != [] {
      SingleEpochReleasesAll(ps[1..], c);
      assert ps == [ps[0]] + ps[1..];
    }
  }

  /** The package-global state of internal/eventually, together with the
      runtime's record of registered finalizers. */
  class Gate<T(==)> {
    /** The channel the global `unblocked` currently holds. */
    var unblocked: nat
    /** The channels closed so far. */
    var closed: set<nat>
    /** The next identifier `make(chan struct{})` hands out. */
    var nextChan: nat
    /** Background goroutines still waiting to register. */
    var parked: seq<Parked<T>>
    /** The `runtime.SetFinalizer` calls made so far, in order. */
    var registered: seq<T>
    /** Every SetFinalizer request so far, in order. */
    ghost var requested: seq<T>

    /** Channels are made before they are used; a goroutine waits only on a
        channel that is still open; and every request has led to exactly one
        registration, made or still pending. */
    ghost predicate Valid()
      reads this
    {
      && unblocked < nextChan
      && (forall c :: c in closed ==> c < nextChan)
      && WaitOnOpen(parked, closed, nextChan)
      && multiset(requested) == multiset(registered) + multiset(Regs(parked))
    }

    /** Receiving from `unblocked` would not block. */
    predicate IsUnblocked()
      reads this
    {
      unblocked in closed
    }

    /** Package initialization: `unblocked` is made and then closed by `init`. */
    constructor ()
      ensures Valid() && IsUnblocked()
      ensures parked == [] && registered == [] && requested == []
    {
      unblocked := 0;
      nextChan := 1;
      closed := {};
      parked := [];
      registered := [];
      requested := [];
      new;
      closed := closed + {unblocked};
    }

    /** Block: install a fresh open channel and hand back the right to close it. */
    method Block() returns (unblock: nat)
      requires Valid()
      modifies this`unblocked, this`nextChan
      ensures Valid() && !IsUnblocked()
      ensures unblock == unblocked == old(nextChan) && nextChan == old(nextChan) + 1
    {
      unblock := nextChan;
      nextChan := nextChan + 1;
      unblocked := unblock;
    }

    /** The `unblock` function returned by Block: close its channel, which lets
        every goroutine waiting on it register. A second call closes a channel
        that is already closed, and panics. */
    method Unblock(c: nat) returns (r: Outcome)
      requires Valid() && c < nextChan
      modifies this`closed, this`parked, this`registered
      ensures Valid()
      ensures old(c in closed) ==>
                r == Fail(CloseOfClosedChannel) && closed == old(closed)
                && parked == old(parked) && registered == old(registered)
      ensures old(c !in closed) ==>
                r == Pass && closed == old(closed) + {c}
                && registered == old(registered) + Regs(WaitingOn(old(parked), c))
                && parked == NotWaitingOn(old(parked), c)
    {
      if c in closed {
        return Fail(CloseOfClosedChannel);
      }
      ReleaseKeepsAccount(requested, registered, parked, c, closed, nextChan);
      var released, waiting := Regs(WaitingOn(parked, c)), NotWaitingOn(parked, c);
      closed := closed + {c};
      registered := registered + released;
      parked := waiting;
      r := Pass;
    }

    /** SetFinalizer: register at once when unblocked, otherwise park the
        registration on the current channel. */
    method SetFinalizer(reg: T)
      requires Valid()
      modifies this`parked, this`registered, this`requested
      ensures Valid()
      ensures requested == old(requested) + [reg]
      ensures old(IsUnblocked()) ==> registered == old(registered) + [reg] && parked == old(parked)
      ensures !old(IsUnblocked()) ==>
                parked == old(parked) + [Parked(reg, unblocked)] && registered == old(registered)
    {
      if unblocked in closed {
        RegisterKeepsAccount(requested, registered, parked, reg);
        registered := registered + [reg];
      } else {
        var waiter := Parked(reg, unblocked);
        ParkKeepsAccount(requested, registered, parked, waiter, closed, nextChan);
        parked := parked + [waiter];
      }
      requested := requested + [reg];
    }
  }
}
