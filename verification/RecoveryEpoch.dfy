/** The generation-based commit ownership of Body/recovery_epoch.go: the epoch's
    transitions as functions on values, and the mutex-protected object that
    performs them in place. Generations are unbounded here. */
module PathEpoch {
  import opened Common

  /** The fields guarded by the epoch's mutex; T identifies a tunnel. */
  datatype EpochState<T(==)> = EpochState(
    gen: nat,
    active: Option<T>,
    committed: bool,
    pendingRecovery: Option<T>,
    closed: bool)
  {
    /** Unconditional reservation. 0 reports a closed epoch. */
    function NextGen(): (EpochState<T>, nat) {
      if closed then (this, 0) else (this.(gen := gen + 1, committed := false), gen + 1)
    }

    /** Reservation on behalf of the holder of `lost`. 0 reports a closed epoch, a
        tunnel that is no longer active, or a recovery of it already in flight. */
    function NextGenForTunnel(lost: Option<T>): (EpochState<T>, nat) {
      if closed then (this, 0)
      else if active.Some? && active != lost then (this, 0)
      else if pendingRecovery.Some? && pendingRecovery == lost then (this, 0)
      else (this.(gen := gen + 1, committed := false, pendingRecovery := lost), gen + 1)
    }

    /** Installs the candidate when g is current and has not committed. */
    function TryCommit(g: nat, candidate: T): (EpochState<T>, bool) {
      if closed || g != gen || committed then
        (if g == gen then this.(pendingRecovery := None) else this, false)
      else
        (this.(active := Some(candidate), committed := true, pendingRecovery := None), true)
    }

    /** Releases the in-flight marker owned by the current generation. */
    function TryCancel(g: nat): EpochState<T> {
      if !closed && g == gen then this.(pendingRecovery := None) else this
    }

    predicate TryReserveMigration(g: nat) {
      !closed && g == gen
    }

    /** Closes the epoch and forgets the active tunnel, which the caller stops. */
    function Shutdown(): EpochState<T> {
      this.(closed := true, active := None)
    }
  }

  datatype Stopped = Clean | BindLeft | Panicked

  /** A userspace tunnel: only the part of its lifecycle the epoch relies on. */
  class BodyTunnel {
    var started: bool
    var deviceUp: bool

    constructor ()
      ensures !started && !deviceUp
    {
      started, deviceUp := false, false;
    }

    /** Stopping takes the device down even when closing the bind fails; the
        tunnel then still counts as started. Stopping it in that state closes its
        shutdown channel a second time, which panics. */
    method Stop(bindCloses: bool) returns (outcome: Stopped)
      modifies this
      ensures outcome.Panicked? <==> old(started) && !old(deviceUp)
      ensures outcome.Clean? <==> !old(started) || (old(deviceUp) && bindCloses)
      ensures old(started) ==> !deviceUp
      ensures !old(started) ==> deviceUp == old(deviceUp)
      ensures started == (old(started) && !outcome.Clean?)
    {
      if !started { return Clean; }
      if !deviceUp { return Panicked; }
      deviceUp := false;
      if !bindCloses { return BindLeft; }
      started := false;
      return Clean;
    }
  }

  /** The shared epoch object. Each method is one critical section. */
  class RecoveryEpoch {
    var gen: nat
    var active: BodyTunnel?
    var committed: bool
    var pendingRecovery: BodyTunnel?
    var closed: bool

    static function Tunnel(t: BodyTunnel?): Option<BodyTunnel> {
      if t == null then None else Some(t)
    }

    /** The guarded fields as one value. */
    function State(): EpochState<BodyTunnel>
      reads this
    {
      EpochState(gen, Tunnel(active), committed, Tunnel(pendingRecovery), closed)
    }

    constructor (initial: BodyTunnel?)
      ensures State() == EpochState(0, Tunnel(initial), false, None, false)
    {
      gen, active, committed, pendingRecovery, closed := 0, initial, false, null, false;
    }

    method NextGen() returns (g: nat)
      modifies this
      ensures (State(), g) == old(State()).NextGen()
      ensures g != 0 ==> g > old(gen)
    {
      if closed { return 0; }
      gen := gen + 1;
      committed := false;
      return gen;
    }

    method NextGenForTunnel(oldTunnel: BodyTunnel?) returns (g: nat)
      modifies this
      ensures (State(), g) == old(State()).NextGenForTunnel(Tunnel(oldTunnel))
      ensures g != 0 ==> g > old(gen)
    {
      if closed { return 0; }
      if active != null && active != oldTunnel { return 0; }
      if pendingRecovery != null && pendingRecovery == oldTunnel { return 0; }
      gen := gen + 1;
      committed := false;
      pendingRecovery := oldTunnel;
      return gen;
    }

    method TryCommit(g: nat, candidate: BodyTunnel) returns (ok: bool)
      modifies this
      ensures (State(), ok) == old(State()).TryCommit(g, candidate)
      ensures ok ==> active == candidate
      ensures !ok ==> active == old(active)
    {
      if closed || g != gen || committed {
        if g == gen {
          pendingRecovery := null;
        }
        return false;
      }
      active := candidate;
      committed := true;
      pendingRecovery := null;
      return true;
    }

    method TryCancel(g: nat)
      modifies this
      ensures State() == old(State()).TryCancel(g)
    {
      if !closed && g == gen {
        pendingRecovery := null;
      }
    }

    method TryReserveMigration(g: nat) returns (ok: bool)
      ensures ok == State().TryReserveMigration(g)
    {
      if closed { return false; }
      if g != gen { return false; }
      return true;
    }

    /** Shutting down over a tunnel whose bind was left panics half way: closed, with
        the tunnel still active. */
    method Shutdown(bindCloses: bool) returns (panicked: bool)
      modifies this, active
      ensures panicked <==> old(active) != null && old(active.started) && !old(active.deviceUp)
      ensures State() == if panicked then old(State()).(closed := true) else old(State()).Shutdown()
      ensures old(active) != null && old(active.started) ==> !old(active).deviceUp
    {
      closed := true;
      if active != null {
        var outcome := active.Stop(bindCloses);
        if outcome.Panicked? { return true; }
        active := null;
      }
      return false;
    }
  }
}
