/** The standing of a connection as the relay keeps it: fields updated under the lease lock, and an atomic phase. */
module LeaseEngine {
  import opened Basics
  import opened Leases

  class LeasedConnection {
    var phase: Phase
    var entered: bool
    var leased: bool
    var drained: bool
    var announcing: bool
    var bootstrapped: bool
    var deadline: Option<Time>
    var generation: nat
    var expired: bool

    function View(): Standing
      reads this
    {
      Standing(phase, entered, leased, drained, announcing, bootstrapped, deadline, generation, expired)
    }

    constructor ()
      ensures View() == NewStanding()
    {
      phase, entered, leased, drained, announcing, bootstrapped := AwaitHello, false, false, false, false, false;
      deadline, generation, expired := None, 0, false;
    }

    method InstallLease(expiresAt: Time)
      modifies `generation, `expired, `deadline
      ensures View() == Install(old(View()), expiresAt)
    {
      generation := generation + 1;
      expired := false;
      deadline := Some(expiresAt);
    }

    method ActivateInitial(expiresAt: Time, now: Time) returns (activated: bool)
      requires StandingInv(View()) && CanDo(View(), FirstLease(expiresAt))
      modifies this
      ensures View() == ActivateInitialLease(old(View()), expiresAt, now) && StandingInv(View())
      ensures activated ==> bootstrapped && !LeaseOver(View(), now)
      ensures !activated ==> bootstrapped == old(bootstrapped) && expired
    {
      leased := true;
      if expiresAt <= now {
        expired := true;
        return false;
      }
      InstallLease(expiresAt);
      bootstrapped := true;
      return true;
    }

    method Replace(previous: Option<Time>, expiresAt: Time, now: Time) returns (replaced: bool)
      modifies `generation, `expired, `deadline
      ensures View() == ReplaceLease(old(View()), previous, expiresAt, now)
      ensures replaced <==> Replaceable(old(View()), previous, expiresAt, now)
      ensures replaced ==> !LeaseOver(View(), now)
    {
      if expired || deadline != previous || deadline == None || deadline.value <= now || expiresAt <= now {
        return false;
      }
      InstallLease(expiresAt);
      return true;
    }

    /** `fails` tells the caller to fail the connection, once the lease lock is released. */
    method Expire(timer: nat) returns (fails: bool)
      modifies `expired
      ensures View() == ExpireLease(old(View()), timer)
      ensures fails <==> timer == generation && !old(expired)
    {
      if timer != generation || expired {
        return false;
      }
      expired := true;
      return true;
    }

    method Stop()
      modifies `generation, `phase
      ensures View() == old(View()).(phase := Closed, generation := old(generation) + 1)
    {
      phase := Closed;
      generation := generation + 1;
    }

    /** The announcement is made once, and only by a connection that is active when it is about to be queued. */
    method BeginDraining() returns (announce: bool)
      modifies `drained, `announcing
      ensures View() == if old(drained) then old(View()) else Done(old(View()), BeginDrain, 0)
      ensures announce ==> !old(drained) && phase == Active && announcing
    {
      if drained {
        return false;
      }
      drained := true;
      announcing := phase == Active;
      return announcing;
    }

    /** Once it is queued, the connection leaves the active phase if nothing else has. */
    method FinishDraining(queued: bool)
      requires announcing
      modifies `announcing, `phase
      ensures View() == Done(old(View()), FinishDrain(queued), 0)
      ensures phase == Draining || phase == old(phase)
    {
      announcing := false;
      if queued && phase == Active {
        phase := Draining;
      }
    }

    method Available(now: Time) returns (available: bool)
      ensures available == IsAvailable(View(), now)
    {
      if !bootstrapped || phase != Active {
        return false;
      }
      return !(expired || (deadline.Some? && deadline.value <= now));
    }
  }
}
