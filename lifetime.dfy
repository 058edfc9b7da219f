/** The lifetime manager of one generator: it follows the clock, keeps the
    remaining life `desired - (now - birth)`, and raises `kill$` when that
    reaches zero. The global teardown (`destroy$`) is meant to raise `kill$`
    too, but the relay that would do it is closed before it runs. After
    either, the manager no longer follows the clock. */
module Lifetime {
  import opened Models

  /** Why `kill$` was emitted. `External` is a `kill$.next()` from outside the
      manager (the subject is public). */
  datatype KillCause = Expiry | Destroyed | External

  /** The observers of `destroy$` in the order they subscribe. Each
      `takeUntil(merge(destroy$, kill$))` subscribes its notifier before its
      source: the clock subscription's notifier, then the relay's notifier,
      then the relay itself, then the expiry subscription's notifier. */
  datatype DestroyObserver = CloseClock | CloseRelay | Relay | CloseExpiry

  const DestroyObservers: seq<DestroyObserver> := [CloseClock, CloseRelay, Relay, CloseExpiry]

  /** The order the relay was evidently meant to have: closed by `kill$`
      alone, it is not an observer of `destroy$` through its notifier. */
  const IntendedDestroyObservers: seq<DestroyObserver> := [CloseClock, Relay, CloseExpiry]

  /** Whether one emission of `destroy$` reaches `kill$.next()`. A `Subject`
      notifies its observers in order and skips one whose subscription has
      closed meanwhile; `relayOpen` says whether the relay is still open. */
  function RelayFires(observers: seq<DestroyObserver>, relayOpen: bool): bool
  {
    if observers == [] then false
    else match observers[0]
      case CloseRelay => RelayFires(observers[1..], false)
      case Relay => relayOpen || RelayFires(observers[1..], relayOpen)
      case _ => RelayFires(observers[1..], relayOpen)
  }

  /** The relay fires exactly when it is open and comes before its own notifier. */
  lemma {:induction false} RelayFiresIff(observers: seq<DestroyObserver>, relayOpen: bool)
    ensures RelayFires(observers, relayOpen) <==>
            relayOpen && exists i | 0 <= i < |observers| :: observers[i] == Relay && CloseRelay !in observers[..i]
  {
    if observers != [] {
      RelayFiresIff(observers[1..], if observers[0] == CloseRelay then false else relayOpen);
      if RelayFires(observers, relayOpen) && observers[0] != Relay {
        var i :| 0 <= i < |observers[1..]| && observers[1..][i] == Relay && CloseRelay !in observers[1..][..i];
        assert observers[..i + 1] == [observers[0]] + observers[1..][..i];
      }
      if relayOpen && !RelayFires(observers, relayOpen) && observers[0] != Relay {
        forall i | 0 <= i < |observers| && observers[i] == Relay
          ensures CloseRelay in observers[..i]
        {
          if observers[0] != CloseRelay {
            assert observers[1..][i - 1] == Relay;
            assert observers[1..][..i - 1] == observers[1..i];
            assert CloseRelay in observers[1..i];
          } else {
            assert observers[..i][0] == CloseRelay;
          }
        }
      }
    }
  }

  /** As subscribed, a teardown never reaches `kill$`, whatever state the relay is in. */
  lemma {:induction false} DestroyRelayNeverFires(relayOpen: bool)
    ensures !RelayFires(DestroyObservers, relayOpen)
  {
    RelayFiresIff(DestroyObservers, relayOpen);
    forall i | 0 <= i < |DestroyObservers| && DestroyObservers[i] == Relay
      ensures CloseRelay in DestroyObservers[..i]
    {
      assert DestroyObservers[..i][1] == CloseRelay;
    }
  }

  /** With the intended order, a teardown reaches `kill$` exactly when the
      relay is still open. */
  lemma {:induction false} IntendedRelayFires(relayOpen: bool)
    ensures RelayFires(IntendedDestroyObservers, relayOpen) <==> relayOpen
  {
    RelayFiresIff(IntendedDestroyObservers, relayOpen);
    if relayOpen {
      assert IntendedDestroyObservers[1] == Relay && IntendedDestroyObservers[..1] == [CloseClock];
    }
  }

  /** The remaining life the clock subscription computes at clock value `now`. */
  function RemainingAt(desired: Duration, birth: int, now: int): (r: Duration)
    ensures desired.Infinite? <==> r.Infinite?
  {
    desired.Minus(now - birth)
  }

  /** One more clock tick is one frame less of remaining life. */
  lemma {:induction false} TickCostsOneFrame(desired: Duration, birth: int, now: int)
    ensures RemainingAt(desired, birth, now + 1) ==
            (if desired.Finite? then Finite(RemainingAt(desired, birth, now).frames - 1) else Infinite)
  {
  }

  /** A manager built with an infinite life never sees its remaining life reach zero. */
  lemma {:induction false} InfiniteNeverExpires(birth: int, now: int)
    ensures !RemainingAt(Infinite, birth, now).AtMostZero()
  {
  }

  /** A finite life expires exactly from clock value `birth + desired` on. */
  lemma {:induction false} ExpiresFromBirthPlusLife(desired: int, birth: int, now: int)
    ensures RemainingAt(Finite(desired), birth, now).AtMostZero() <==> now >= birth + desired
  {
  }

  /** `remaining / desired * 100`; `None` where JavaScript gives `NaN` or an
      infinity (a zero or infinite desired life). */
  function Percentage(remaining: Duration, desired: Duration): (p: Option<real>)
    ensures p.Some? <==> desired.Finite? && desired.frames != 0 && remaining.Finite?
  {
    if desired.Finite? && desired.frames != 0 && remaining.Finite? then
      Some(remaining.frames as real / desired.frames as real * 100.0)
    else
      None
  }

  /** At birth the remaining life is the whole life: 100 percent. */
  lemma {:induction false} FullPercentageAtBirth(desired: int, birth: int)
    requires desired > 0
    ensures Percentage(RemainingAt(Finite(desired), birth, birth), Finite(desired)) == Some(100.0)
  {
    assert RemainingAt(Finite(desired), birth, birth) == Finite(desired);
    assert desired as real / desired as real == 1.0;
  }

  /** At the expiry clock value the percentage is 0. */
  lemma {:induction false} ZeroPercentageAtExpiry(desired: int, birth: int)
    requires desired > 0
    ensures Percentage(RemainingAt(Finite(desired), birth, birth + desired), Finite(desired)) == Some(0.0)
  {
    assert RemainingAt(Finite(desired), birth, birth + desired) == Finite(0);
  }

  class LifetimeManager {
    const birth: int
    const desired: Duration
    /** The last value of `remainingLifetime$`. */
    var remaining: Duration
    /** The clock subscription is still open: neither `kill$` nor `destroy$` has fired. */
    var tracking: bool
    /** Every emission of `kill$`, in order. */
    var kills: seq<KillCause>

    /** The manager's own kill is the first emission of `kill$` and the only
        one it causes; only outside callers emit after it. It follows the
        clock until then and never expires with an infinite life. */
    ghost predicate Valid()
      reads this
    {
      && (tracking ==> kills == [])
      && (forall i | 0 < i < |kills| :: kills[i] == External)
      && (tracking ==> !remaining.AtMostZero())
      && (desired.Infinite? ==> remaining.Infinite? && Expiry !in kills)
    }

    /** The clock is a `BehaviorSubject`: its current value `now` is seen at
        construction, so a life that is already over is killed at once. */
    constructor (now: int, birth: int, desired: Duration)
      ensures Valid()
      ensures this.birth == birth && this.desired == desired
      ensures remaining == RemainingAt(desired, birth, now)
      ensures tracking <==> !RemainingAt(desired, birth, now).AtMostZero()
      ensures kills == if RemainingAt(desired, birth, now).AtMostZero() then [Expiry] else []
    {
      this.birth := birth;
      this.desired := desired;
      remaining := RemainingAt(desired, birth, now);
      if RemainingAt(desired, birth, now).AtMostZero() {
        tracking := false;
        kills := [Expiry];
      } else {
        tracking := true;
        kills := [];
      }
    }

    /** A clock emission with value `now`. */
    method Tick(now: int)
      requires Valid()
      modifies this
      ensures Valid()
      ensures old(tracking) ==> remaining == RemainingAt(desired, birth, now)
      ensures old(tracking) ==> tracking == !remaining.AtMostZero()
      ensures old(tracking) ==> kills == if remaining.AtMostZero() then [Expiry] else []
      ensures !old(tracking) ==> remaining == old(remaining) && tracking == old(tracking) && kills == old(kills)
    {
      if tracking {
        remaining := RemainingAt(desired, birth, now);
        if remaining.AtMostZero() {
          tracking := false;
          kills := kills + [Expiry];
        }
      }
    }

    /** An emission of `destroy$`: every subscription closes, and the relay
        is closed by its own notifier before it runs, so `kill$` stays silent. */
    method Destroy()
      requires Valid()
      modifies this
      ensures Valid()
      ensures !tracking && remaining == old(remaining)
      ensures kills == old(kills)
    {
      DestroyRelayNeverFires(tracking);
      kills := kills + (if RelayFires(DestroyObservers, tracking) then [Destroyed] else []);
      tracking := false;
    }

    /** An emission of `destroy$` with the relay ordered as intended: relayed
        into `kill$` exactly when the manager is still tracking. */
    method DestroyAsIntended()
      requires Valid()
      modifies this
      ensures Valid()
      ensures !tracking && remaining == old(remaining)
      ensures kills == if old(tracking) then [Destroyed] else old(kills)
    {
      IntendedRelayFires(tracking);
      kills := kills + (if RelayFires(IntendedDestroyObservers, tracking) then [Destroyed] else []);
      tracking := false;
    }

    /** `kill$.next()` called from outside the manager. */
    method ForceKill()
      requires Valid()
      modifies this
      ensures Valid()
      ensures !tracking && remaining == old(remaining)
      ensures kills == old(kills) + [External]
    {
      tracking := false;
      kills := kills + [External];
    }

    method GetRemainingLifetime() returns (r: Duration)
      requires Valid()
      ensures r == remaining
      ensures tracking ==> !r.AtMostZero()
    {
      r := remaining;
    }

    method GetRemainingLifetimePercentage() returns (p: Option<real>)
      requires Valid()
      ensures p == Percentage(remaining, desired)
      ensures desired.Infinite? ==> p.None?
    {
      p := Percentage(remaining, desired);
    }
  }
}
