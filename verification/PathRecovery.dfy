/** Every interleaving of RecoverPath attempts, discovery runs (MigratePath then
    CutoverPath in a loop) and Shutdown over one recovery epoch, as a transition
    system. One step is one critical section or one tunnel operation. */
module PathRecovery {
  import opened Common
  import opened PathEpoch

  type Tunnel = nat
  type AttemptId = nat

  /** One successful commit: the generation and the tunnel it installed. */
  datatype Commit = Commit(gen: nat, tunnel: Tunnel)

  /** What all attempts share. `live` holds the tunnels whose device is up and
      `jammed` those whose Stop took the device down but could not close the
      bind. After a panic the process is gone and nothing else happens; what it
      leaves in the other fields is never read. The last three fields are history:
      tunnels ever created, tunnels ever active, and the commits in order. */
  datatype World = World(
    epoch: EpochState<Tunnel>,
    live: set<Tunnel>,
    jammed: set<Tunnel>,
    panicked: bool,
    used: set<Tunnel>,
    installed: set<Tunnel>,
    log: seq<Commit>)

  /** The three ways a candidate tunnel comes about: RecoverPath's path selection,
      CutoverPath's new tunnel, and the rollback tunnel after a failed cutover. */
  datatype Flow = Recover | Cutover | Rollback

  /** Where an attempt is. An attempt is a RecoverPath call or a runDiscovery call
      with MigratePath, CutoverPath and the rollback inlined; `p` is runDiscovery's
      pendingGen, 0 when nothing is reserved. */
  datatype Pc =
    | RecoverBegin(lost: Option<Tunnel>)                 // reserve for a lost tunnel
    | Break(flow: Flow, g: nat, lost: Option<Tunnel>)    // stop the tunnel being replaced
    | Start(flow: Flow, g: nat)                          // bring a candidate up
    | Handshake(flow: Flow, g: nat, t: Tunnel)           // wait for its handshake
    | Abandon(flow: Flow, g: nat, t: Tunnel)             // stop it: no handshake
    | Install(flow: Flow, g: nat, t: Tunnel)             // try to commit it
    | Discard(flow: Flow, g: nat, t: Tunnel)             // stop it: commit refused
    | Release(g: nat)                                    // cancel the reservation, return
    | DiscoverLoop(p: nat)                               // top of the discovery loop
    | MigrateRead(p: nat)                                // candidate validated, read active
    | MigrateReserve(p: nat, lost: Option<Tunnel>)       // reserve for it
    | MigrateCheck(p: nat, g: nat)                       // check the reservation
    | CutoverRead(g: nat)                                // MigratePath returned g, read active
    | CutoverCheck(g: nat, lost: Option<Tunnel>)         // re-validate and check g
    | Done
    | Crashed                                            // panicked in Stop

  /** The outcome the environment picks for a step: whether the selection, start,
      handshake or validation succeeds, whether a bind fails to close, and the
      identity of a tunnel the step creates. */
  datatype Choice = Choice(ok: bool, bindFails: bool, created: Tunnel)

  datatype Machine = Machine(world: World, attempts: map<AttemptId, Pc>)

  datatype Event =
    | Spawn(id: AttemptId, pc: Pc)
    | Act(id: AttemptId, choice: Choice)
    | Shutdown(bindFails: bool)
    | RawNextGen

  // ----- single steps

  function Stop(w: World, t: Tunnel, bindFails: bool): World {
    if t !in w.live then w
    else w.(live := w.live - {t}, jammed := if bindFails then w.jammed + {t} else w.jammed)
  }

  /** Stopping a nil tunnel, or one that is jammed, panics. */
  function Panic(w: World): (World, Pc) {
    (w.(panicked := true), Crashed)
  }

  function Launch(w: World, t: Tunnel): World {
    w.(live := w.live + {t}, used := w.used + {t})
  }

  function TryCommit(w: World, g: nat, t: Tunnel): (World, bool) {
    var (e, ok) := w.epoch.TryCommit(g, t);
    if ok then (w.(epoch := e, installed := w.installed + {t}, log := w.log + [Commit(g, t)]), true)
    else (w.(epoch := e), false)
  }

  /** One step of an attempt. */
  function Advance(w: World, pc: Pc, c: Choice): (World, Pc) {
    match pc
    case RecoverBegin(lost) =>
      var (e, g) := w.epoch.NextGenForTunnel(lost);
      (w.(epoch := e), if g == 0 then Done else Break(Recover, g, lost))
    case Break(flow, g, lost) =>
      if lost.None? || lost.value in w.jammed then Panic(w)
      else (Stop(w, lost.value, c.bindFails),
            if lost.value in w.live && c.bindFails then AfterFailure(flow, g) else Start(flow, g))
    case Start(flow, g) =>
      if c.ok then (Launch(w, c.created), Handshake(flow, g, c.created)) else (w, AfterFailure(flow, g))
    case Handshake(flow, g, t) => (w, if c.ok then Install(flow, g, t) else Abandon(flow, g, t))
    case Abandon(flow, g, t) =>
      // path selection moves on to its next path
      if t in w.jammed then Panic(w)
      else (Stop(w, t, c.bindFails), if flow.Recover? then Start(Recover, g) else AfterFailure(flow, g))
    case Install(flow, g, t) =>
      var (w', ok) := TryCommit(w, g, t);
      (w', if !ok then Discard(flow, g, t) else if flow.Rollback? then DiscoverLoop(g) else Done)
    case Discard(flow, g, t) =>
      if t in w.jammed then Panic(w)
      else (Stop(w, t, c.bindFails), if flow.Recover? then Done else DiscoverLoop(g))
    case Release(g) => (w.(epoch := w.epoch.TryCancel(g)), Done)
    case DiscoverLoop(p) =>
      // cancelled or refused a probe slot, or a probe found the preferred path
      (w, if c.ok then MigrateRead(p) else if p > 0 then Release(p) else Done)
    case MigrateRead(p) => (w, MigrateReserve(p, w.epoch.active))
    case MigrateReserve(p, lost) =>
      var (e, g) := w.epoch.NextGenForTunnel(lost);
      (w.(epoch := e), MigrateCheck(p, g))
    case MigrateCheck(p, g) =>
      (w, if w.epoch.TryReserveMigration(g) then CutoverRead(g) else DiscoverLoop(p))
    case CutoverRead(g) => (w, CutoverCheck(g, w.epoch.active))
    case CutoverCheck(g, lost) =>
      (w, if c.ok && w.epoch.TryReserveMigration(g) then Break(Cutover, g, lost) else DiscoverLoop(g))
    case Done => (w, Done)
    case Crashed => (w, Crashed)
  }

  /** Where an attempt goes when its stop or start fails: recovery releases its
      reservation, a cutover rolls back, and a failed rollback keeps the ticket. */
  function AfterFailure(flow: Flow, g: nat): Pc {
    match flow
    case Recover => Release(g)
    case Cutover => Start(Rollback, g)
    case Rollback => DiscoverLoop(g)
  }

  /** Steps the environment may offer. New tunnels are new objects. */
  predicate Enabled(m: Machine, ev: Event) {
    !m.world.panicked &&
    match ev
    case Spawn(id, pc) => id !in m.attempts && (pc.RecoverBegin? || pc == DiscoverLoop(0))
    case Act(id, c) => id in m.attempts && m.attempts[id] != Done && m.attempts[id] != Crashed && c.created !in m.world.used
    case Shutdown(_) => true
    case RawNextGen => true
  }

  function Close(w: World, bindFails: bool): World {
    if w.epoch.active.None? then w.(epoch := w.epoch.Shutdown())
    else if w.epoch.active.value in w.jammed then Panic(w).0
    else Stop(w, w.epoch.active.value, bindFails).(epoch := w.epoch.Shutdown())
  }

  function Next(m: Machine, ev: Event): Machine
    requires Enabled(m, ev)
  {
    match ev
    case Spawn(id, pc) => m.(attempts := m.attempts[id := pc])
    case Act(id, c) =>
      var (w, pc) := Advance(m.world, m.attempts[id], c);
      Machine(w, m.attempts[id := pc])
    case Shutdown(bindFails) => m.(world := Close(m.world, bindFails))
    case RawNextGen => m.(world := m.world.(epoch := m.world.epoch.NextGen().0))
  }

  /** The supervisor's start: one live tunnel, installed as the active one. */
  function Init(initial: Tunnel): Machine {
    Machine(
      World(EpochState(0, Some(initial), false, None, false), {initial}, {}, false, {initial}, {initial}, []),
      map[])
  }

  /** Every event of the run is offered by the state it meets. */
  predicate IsRun(m: Machine, evs: seq<Event>)
    decreases |evs|
  {
    evs == [] || (Enabled(m, evs[0]) && IsRun(Next(m, evs[0]), evs[1..]))
  }

  function Run(m: Machine, evs: seq<Event>): Machine
    requires IsRun(m, evs)
    decreases |evs|
  {
    if evs == [] then m else Run(Next(m, evs[0]), evs[1..])
  }

  // ----- the invariant

  /** The generations an attempt was handed and may still act on. */
  function Held(pc: Pc): set<nat> {
    match pc
    case Break(_, g, _) => {g}
    case Start(_, g) => {g}
    case Handshake(_, g, _) => {g}
    case Abandon(_, g, _) => {g}
    case Install(_, g, _) => {g}
    case Discard(flow, g, _) => if flow.Recover? then {} else {g}
    case Release(g) => {g}
    case DiscoverLoop(p) => {p} - {0}
    case MigrateRead(p) => {p} - {0}
    case MigrateReserve(p, _) => {p} - {0}
    case MigrateCheck(p, g) => {p, g} - {0}
    case CutoverRead(g) => {g}
    case CutoverCheck(g, _) => {g}
    case _ => {}
  }

  /** The candidate tunnel an attempt holds. */
  function Candidate(pc: Pc): Option<Tunnel> {
    match pc
    case Handshake(_, _, t) => Some(t)
    case Abandon(_, _, t) => Some(t)
    case Install(_, _, t) => Some(t)
    case Discard(_, _, t) => Some(t)
    case _ => None
  }

  /** The attempt has stopped the tunnel it replaces and may yet commit. */
  predicate Broken(pc: Pc) {
    pc.Start? || pc.Handshake? || pc.Abandon? || pc.Install?
  }

  /** g may still commit. */
  predicate Owns(w: World, g: nat) {
    !w.epoch.closed && g == w.epoch.gen && !w.epoch.committed
  }

  predicate ActiveDown(w: World) {
    w.epoch.active.Some? ==> w.epoch.active.value !in w.live
  }

  predicate WorldOk(w: World) {
    var e := w.epoch;
    && (e.closed <==> e.active.None?)
    && (e.active.Some? ==> e.active.value in w.installed)
    && w.live <= w.used
    && w.installed <= w.used
    && w.jammed <= w.used
    && w.live !! w.jammed
    && (forall t :: t in w.live && t in w.installed ==> e.active == Some(t))
    && (e.gen == 0 ==> e.pendingRecovery.None? && !e.committed)
    && (e.pendingRecovery.Some? && !e.closed ==> e.pendingRecovery == e.active)
    && LogOk(w.log, e)
  }

  /** The commits carry strictly increasing generations, the current one last if
      it has committed, and the last commit is what an open epoch has active. */
  predicate LogOk(log: seq<Commit>, e: EpochState<Tunnel>) {
    && (forall i, j :: 0 <= i < j < |log| ==> log[i].gen < log[j].gen)
    && (forall i :: 0 <= i < |log| ==> 0 < log[i].gen <= e.gen)
    && (e.committed <==> log != [] && log[|log| - 1].gen == e.gen)
    && (log != [] && !e.closed ==> e.active == Some(log[|log| - 1].tunnel))
  }

  /** What each attempt may assume of the world at its program point. */
  predicate AttemptOk(w: World, pc: Pc) {
    && (forall g :: g in Held(pc) ==> 0 < g <= w.epoch.gen)
    && (Candidate(pc).Some? ==> Candidate(pc).value in w.live && Candidate(pc).value !in w.installed)
    && (Broken(pc) && Owns(w, pc.g) ==> ActiveDown(w))
    && match pc
       case Break(_, g, lost) =>
         lost.Some? && lost.value in w.installed && (Owns(w, g) ==> w.epoch.active == lost)
       case CutoverCheck(g, lost) =>
         && (lost.None? ==> w.epoch.closed)
         && (lost.Some? ==> lost.value in w.installed)
         && (Owns(w, g) ==> w.epoch.active == lost)
       case MigrateReserve(_, lost) =>
         w.epoch.gen == 0 && !w.epoch.closed ==> w.epoch.active == lost
       case MigrateCheck(_, g) => g == 0 ==> w.epoch.closed || w.epoch.gen > 0
       case Crashed => w.panicked
       case _ => true
  }

  predicate Accounted(m: Machine, t: Tunnel) {
    m.world.epoch.active == Some(t) || exists id :: id in m.attempts && Candidate(m.attempts[id]) == Some(t)
  }

  ghost predicate MachineOk(m: Machine) {
    && WorldOk(m.world)
    && (forall id :: id in m.attempts ==> AttemptOk(m.world, m.attempts[id]))
    && (forall i, j :: i in m.attempts && j in m.attempts && i != j ==> Apart(m.attempts[i], m.attempts[j]))
    && (forall t :: t in m.world.live ==> Accounted(m, t))
  }

  /** Two attempts share neither a generation nor a candidate. */
  predicate Apart(a: Pc, b: Pc) {
    Held(a) !! Held(b) && (Candidate(a).Some? ==> Candidate(a) != Candidate(b))
  }

  // ----- preservation

  /** What a step promises to the attempts that did not take it. `cand` is the
      candidate of the attempt that did. */
  predicate Guarantee(w: World, w': World, cand: Option<Tunnel>) {
    && w.epoch.gen <= w'.epoch.gen
    && w.used <= w'.used
    && w.installed <= w'.installed
    && (w.epoch.closed ==> w'.epoch.closed)
    && (w.panicked ==> w'.panicked)
    && (forall t :: t in w.live && t !in w.installed && cand != Some(t) ==> t in w'.live && t !in w'.installed)
    && (!w'.epoch.closed && !w'.epoch.committed && w'.epoch.gen == w.epoch.gen ==>
          && !w.epoch.committed
          && w'.epoch.active == w.epoch.active
          && (ActiveDown(w) ==> ActiveDown(w')))
  }

  lemma OthersKeep(w: World, w': World, cand: Option<Tunnel>, pc: Pc)
    requires WorldOk(w) && WorldOk(w') && AttemptOk(w, pc)
    requires Guarantee(w, w', cand)
    requires Candidate(pc).Some? ==> Candidate(pc) != cand
    ensures AttemptOk(w', pc)
  {
    if Broken(pc) || pc.Break? || pc.CutoverCheck? {
      assert pc.g in Held(pc);
    }
  }

  /** What a step of an attempt establishes for itself. */
  predicate StepOk(w: World, pc: Pc, w': World, pc': Pc) {
    && WorldOk(w')
    && AttemptOk(w', pc')
    && Guarantee(w, w', Candidate(pc))
    && (forall g :: g in Held(pc') ==> g in Held(pc) || g > w.epoch.gen)
    && (Candidate(pc').Some? ==> Candidate(pc') == Candidate(pc) || Candidate(pc').value !in w.used)
    && (forall t :: t in w'.live ==>
          || w'.epoch.active == Some(t)
          || Candidate(pc') == Some(t)
          || (t in w.live && Candidate(pc) != Some(t) && w.epoch.active != Some(t)))
    && (|w'.log| == |w.log| || (ActiveDown(w) && |w'.log| == |w.log| + 1))
  }

  predicate Ready(w: World, pc: Pc, c: Choice) {
    && WorldOk(w)
    && AttemptOk(w, pc)
    && c.created !in w.used
  }

  /** Reservations: the new generation exceeds every one handed out. */
  lemma ReserveOk(w: World, pc: Pc, c: Choice)
    requires pc.RecoverBegin? || pc.MigrateReserve?
    requires Ready(w, pc, c)
    ensures StepOk(w, pc, Advance(w, pc, c).0, Advance(w, pc, c).1)
  {
    var (w', pc') := Advance(w, pc, c);
    assert forall g :: g in Held(pc') ==> g in Held(pc) || g == w.epoch.gen + 1 == w'.epoch.gen;
  }

  /** A tunnel that was active once, or is the stopper's own candidate, is nobody
      else's candidate. */
  lemma StopOk(w: World, t: Tunnel, bindFails: bool, cand: Option<Tunnel>)
    requires WorldOk(w) && t !in w.jammed
    requires t in w.installed || cand == Some(t)
    ensures var w' := Stop(w, t, bindFails);
            && WorldOk(w') && Guarantee(w, w', cand)
            && w'.live == w.live - {t} && w'.epoch == w.epoch && w'.installed == w.installed
            && w'.used == w.used && w'.log == w.log && w'.panicked == w.panicked
  {
  }

  lemma BreakOk(w: World, pc: Pc, c: Choice)
    requires pc.Break?
    requires Ready(w, pc, c)
    ensures StepOk(w, pc, Advance(w, pc, c).0, Advance(w, pc, c).1)
  {
    assert pc.g in Held(pc);
    if pc.lost.value !in w.jammed {
      StopOk(w, pc.lost.value, c.bindFails, Candidate(pc));
    }
  }

  /** A started tunnel is new, so it is nobody else's candidate. */
  lemma StartOk(w: World, pc: Pc, c: Choice)
    requires pc.Start?
    requires Ready(w, pc, c)
    ensures StepOk(w, pc, Advance(w, pc, c).0, Advance(w, pc, c).1)
  {
    assert pc.g in Held(pc);
  }

  /** A commit installs a candidate over a path that is already down. */
  lemma TryCommitOk(w: World, g: nat, t: Tunnel)
    requires WorldOk(w) && 0 < g <= w.epoch.gen
    requires t in w.live && t !in w.installed
    requires Owns(w, g) ==> ActiveDown(w)
    ensures var (w', ok) := TryCommit(w, g, t);
            && WorldOk(w') && Guarantee(w, w', Some(t))
            && w'.live == w.live && w'.epoch.gen == w.epoch.gen && w'.used == w.used
            && (ok <==> Owns(w, g))
            && (ok ==> w'.epoch.active == Some(t) && |w'.log| == |w.log| + 1)
            && (!ok ==> w'.epoch.active == w.epoch.active && w'.installed == w.installed && w'.log == w.log)
  {
  }

  lemma InstallOk(w: World, pc: Pc, c: Choice)
    requires pc.Install?
    requires Ready(w, pc, c)
    ensures StepOk(w, pc, Advance(w, pc, c).0, Advance(w, pc, c).1)
  {
    assert pc.g in Held(pc);
    TryCommitOk(w, pc.g, pc.t);
  }

  lemma DiscardOk(w: World, pc: Pc, c: Choice)
    requires pc.Abandon? || pc.Discard?
    requires Ready(w, pc, c)
    ensures StepOk(w, pc, Advance(w, pc, c).0, Advance(w, pc, c).1)
  {
    StopOk(w, pc.t, c.bindFails, Candidate(pc));
    var pc' := Advance(w, pc, c).1;
    assert forall g :: g in Held(pc') ==> g in Held(pc);
  }

  /** Steps that leave tunnels alone and at most clear the in-flight marker. */
  lemma ControlOk(w: World, pc: Pc, c: Choice)
    requires !(pc.RecoverBegin? || pc.MigrateReserve? || pc.Break? || pc.Start? || pc.Install? || pc.Abandon? || pc.Discard?)
    requires Ready(w, pc, c)
    ensures StepOk(w, pc, Advance(w, pc, c).0, Advance(w, pc, c).1)
  {
    var pc' := Advance(w, pc, c).1;
    assert forall g :: g in Held(pc') ==> g in Held(pc);
  }

  lemma AdvanceOk(w: World, pc: Pc, c: Choice)
    requires Ready(w, pc, c)
    ensures StepOk(w, pc, Advance(w, pc, c).0, Advance(w, pc, c).1)
  {
    match pc
    case RecoverBegin(_) => ReserveOk(w, pc, c);
    case MigrateReserve(_, _) => ReserveOk(w, pc, c);
    case Break(_, _, _) => BreakOk(w, pc, c);
    case Start(_, _) => StartOk(w, pc, c);
    case Install(_, _, _) => InstallOk(w, pc, c);
    case Abandon(_, _, _) => DiscardOk(w, pc, c);
    case Discard(_, _, _) => DiscardOk(w, pc, c);
    case _ => ControlOk(w, pc, c);
  }

  // ----- every run

  lemma ActKeepsMachine(m: Machine, id: AttemptId, c: Choice)
    requires MachineOk(m) && Enabled(m, Act(id, c))
    ensures MachineOk(Next(m, Act(id, c)))
  {
    var pc := m.attempts[id];
    var (w', pc') := Advance(m.world, pc, c);
    var m' := Next(m, Act(id, c));
    AdvanceOk(m.world, pc, c);
    forall j | j in m'.attempts && j != id
      ensures AttemptOk(w', m'.attempts[j]) && Apart(m'.attempts[j], pc') && Apart(pc', m'.attempts[j])
    {
      assert Apart(m.attempts[j], pc);
      OthersKeep(m.world, w', Candidate(pc), m.attempts[j]);
    }
    forall t | t in w'.live
      ensures Accounted(m', t)
    {
      if w'.epoch.active != Some(t) && Candidate(pc') != Some(t) {
        assert Accounted(m, t);
        var j :| j in m.attempts && Candidate(m.attempts[j]) == Some(t);
        assert m'.attempts[j] == m.attempts[j];
      } else if Candidate(pc') == Some(t) {
        assert m'.attempts[id] == pc';
      }
    }
  }

  /** A change of the world that no attempt made. */
  lemma WorldStepKeepsMachine(m: Machine, w': World)
    requires MachineOk(m)
    requires WorldOk(w') && Guarantee(m.world, w', None) && w'.live <= m.world.live
    requires forall t :: t in w'.live && m.world.epoch.active == Some(t) ==> w'.epoch.active == Some(t)
    ensures MachineOk(m.(world := w'))
  {
    forall j | j in m.attempts
      ensures AttemptOk(w', m.attempts[j])
    {
      OthersKeep(m.world, w', None, m.attempts[j]);
    }
    forall t | t in w'.live
      ensures Accounted(m.(world := w'), t)
    {
      assert Accounted(m, t);
    }
  }

  lemma SpawnKeepsMachine(m: Machine, ev: Event)
    requires MachineOk(m) && Enabled(m, ev) && ev.Spawn?
    ensures MachineOk(Next(m, ev))
  {
    var m' := Next(m, ev);
    forall t | t in m.world.live
      ensures Accounted(m', t)
    {
      assert Accounted(m, t);
      if m.world.epoch.active != Some(t) {
        var j :| j in m.attempts && Candidate(m.attempts[j]) == Some(t);
        assert m'.attempts[j] == m.attempts[j];
      }
    }
  }

  lemma NextKeepsMachine(m: Machine, ev: Event)
    requires MachineOk(m) && Enabled(m, ev)
    ensures MachineOk(Next(m, ev))
  {
    match ev
    case Spawn(_, _) => SpawnKeepsMachine(m, ev);
    case Act(id, c) => ActKeepsMachine(m, id, c);
    case Shutdown(bindFails) =>
      if m.world.epoch.active.Some? && m.world.epoch.active.value !in m.world.jammed {
        StopOk(m.world, m.world.epoch.active.value, bindFails, None);
      }
      WorldStepKeepsMachine(m, Close(m.world, bindFails));
    case RawNextGen =>
      WorldStepKeepsMachine(m, Next(m, ev).world);
  }

  lemma {:induction false} RunKeepsMachine(m: Machine, evs: seq<Event>)
    requires MachineOk(m) && IsRun(m, evs)
    ensures MachineOk(Run(m, evs))
    decreases |evs|
  {
    if evs != [] {
      NextKeepsMachine(m, evs[0]);
      RunKeepsMachine(Next(m, evs[0]), evs[1..]);
    }
  }

  predicate Finished(m: Machine) {
    forall id :: id in m.attempts ==> m.attempts[id] == Done
  }

  /** Every live tunnel is the active one or the candidate of exactly one
      unfinished attempt, in every state of every interleaving. */
  lemma LiveTunnelsHaveOneOwner(initial: Tunnel, evs: seq<Event>, t: Tunnel)
    requires IsRun(Init(initial), evs)
    requires t in Run(Init(initial), evs).world.live
    ensures var m := Run(Init(initial), evs);
            if m.world.epoch.active == Some(t) then
              forall id :: id in m.attempts ==> Candidate(m.attempts[id]) != Some(t)
            else
              exists id :: id in m.attempts && Candidate(m.attempts[id]) == Some(t) && m.attempts[id] != Done
                           && forall j :: j in m.attempts && j != id ==> Candidate(m.attempts[j]) != Some(t)
  {
    var m := Run(Init(initial), evs);
    RunKeepsMachine(Init(initial), evs);
    assert Accounted(m, t);
    if m.world.epoch.active != Some(t) {
      var id :| id in m.attempts && Candidate(m.attempts[id]) == Some(t);
      forall j | j in m.attempts && j != id
        ensures Candidate(m.attempts[j]) != Some(t)
      {
        assert Apart(m.attempts[id], m.attempts[j]);
      }
    }
  }

  /** Once the epoch is shut down and every attempt has returned, nothing is live. */
  lemma ShutdownLeavesNothingLive(initial: Tunnel, evs: seq<Event>)
    requires IsRun(Init(initial), evs)
    requires Run(Init(initial), evs).world.epoch.closed && Finished(Run(Init(initial), evs))
    ensures Run(Init(initial), evs).world.live == {}
  {
    var m := Run(Init(initial), evs);
    RunKeepsMachine(Init(initial), evs);
    if t :| t in m.world.live {
      assert Accounted(m, t);
    }
  }

  /** The active tunnel of an open epoch is only replaced once its device is down. */
  lemma ReplacementBreaksFirst(m: Machine, ev: Event)
    requires MachineOk(m) && Enabled(m, ev)
    ensures var w, w' := m.world, Next(m, ev).world;
            w'.epoch.active != w.epoch.active && !w'.epoch.closed ==>
              && w.epoch.active.Some? && w.epoch.active.value !in w.live
              && |w'.log| == |w.log| + 1 && w'.epoch.active == Some(w'.log[|w.log|].tunnel)
  {
    if ev.Act? && m.attempts[ev.id].Install? {
      var pc := m.attempts[ev.id];
      assert pc.g in Held(pc);
      TryCommitOk(m.world, pc.g, pc.t);
    }
  }

  /** Generations commit at most once and in order, and a commit never replaces a
      tunnel whose device is still up. */
  lemma CommitsAreOrderedAndBreakFirst(initial: Tunnel, evs: seq<Event>, ev: Event)
    requires IsRun(Init(initial), evs) && Enabled(Run(Init(initial), evs), ev)
    ensures var w := Run(Init(initial), evs).world;
            var w' := Next(Run(Init(initial), evs), ev).world;
            && (forall i, j :: 0 <= i < j < |w'.log| ==> w'.log[i].gen < w'.log[j].gen)
            && (w'.epoch.active != w.epoch.active && !w'.epoch.closed ==>
                  && w.epoch.active.Some? && w.epoch.active.value !in w.live
                  && |w'.log| == |w.log| + 1 && w'.epoch.active == Some(w'.log[|w.log|].tunnel))
  {
    RunKeepsMachine(Init(initial), evs);
    NextKeepsMachine(Run(Init(initial), evs), ev);
    ReplacementBreaksFirst(Run(Init(initial), evs), ev);
  }

  /** No attempt ever stops a nil tunnel, and MigratePath never returns generation
      0 without an error although it does not test for it. */
  lemma NoNilStopAndNoZeroTicket(initial: Tunnel, evs: seq<Event>, id: AttemptId)
    requires IsRun(Init(initial), evs)
    requires id in Run(Init(initial), evs).attempts
    ensures var pc := Run(Init(initial), evs).attempts[id];
            && (pc.Break? ==> pc.lost.Some?)
            && (pc.CutoverRead? ==> 0 < pc.g <= Run(Init(initial), evs).world.epoch.gen)
  {
    RunKeepsMachine(Init(initial), evs);
    var pc := Run(Init(initial), evs).attempts[id];
    if pc.CutoverRead? {
      assert pc.g in Held(pc);
    }
  }

  // ----- panics

  /** The step stops a tunnel whose bind was left open by an earlier stop. */
  predicate StopsJammed(m: Machine, ev: Event) {
    match ev
    case Act(id, _) => id in m.attempts && m.attempts[id].Break? && m.attempts[id].lost.Some? && m.attempts[id].lost.value in m.world.jammed
    case Shutdown(_) => ActiveJammed(m.world)
    case _ => false
  }

  /** Exactly when a step of any run panics: it stops again a tunnel that was active
      and is jammed. Candidates are never jammed when they are stopped. */
  lemma PanicsExactlyOnJammedTunnel(initial: Tunnel, evs: seq<Event>, ev: Event)
    requires IsRun(Init(initial), evs) && Enabled(Run(Init(initial), evs), ev)
    ensures Next(Run(Init(initial), evs), ev).world.panicked <==> StopsJammed(Run(Init(initial), evs), ev)
  {
    RunKeepsMachine(Init(initial), evs);
    var m := Run(Init(initial), evs);
    if ev.Act? {
      assert AttemptOk(m.world, m.attempts[ev.id]);
    }
  }

  /** Every bind closes. */
  predicate BindsClose(evs: seq<Event>) {
    forall ev :: ev in evs ==> (ev.Act? ==> !ev.choice.bindFails) && (ev.Shutdown? ==> !ev.bindFails)
  }

  lemma {:induction false} NoBindFailureNoPanic(m: Machine, evs: seq<Event>)
    requires MachineOk(m) && m.world.jammed == {} && !m.world.panicked
    requires IsRun(m, evs) && BindsClose(evs)
    ensures Run(m, evs).world.jammed == {} && !Run(m, evs).world.panicked
    decreases |evs|
  {
    if evs != [] {
      assert evs[0] in evs;
      NextKeepsMachine(m, evs[0]);
      NoBindFailureNoPanic(Next(m, evs[0]), evs[1..]);
    }
  }

  // ----- one owner at a time

  /** Every raw reservation meets a closed epoch or no recovery in flight. */
  predicate Harmless(m: Machine, evs: seq<Event>)
    requires IsRun(m, evs)
    decreases |evs|
  {
    evs == [] ||
    (!Disturbs(m, evs[0]) && Harmless(Next(m, evs[0]), evs[1..]))
  }

  predicate Disturbs(m: Machine, ev: Event) {
    ev.RawNextGen? && !m.world.epoch.closed && m.world.epoch.pendingRecovery.Some?
  }

  /** Between its reservation and its commit or release. */
  predicate Critical(pc: Pc) {
    || pc.Break? || pc.Start? || pc.Handshake? || pc.Abandon? || pc.Install?
    || pc.CutoverRead? || pc.CutoverCheck? || (pc.MigrateCheck? && pc.g > 0)
  }

  /** An attempt in its critical section is the current, uncommitted generation
      and the in-flight marker is up on its behalf. */
  predicate SoleOwner(e: EpochState<Tunnel>, pc: Pc) {
    Critical(pc) && !e.closed ==> pc.g == e.gen && !e.committed && e.pendingRecovery.Some?
  }

  ghost predicate MarkerHeld(m: Machine) {
    var e := m.world.epoch;
    !m.world.panicked && !e.closed && e.pendingRecovery.Some? ==> exists id :: id in m.attempts && e.gen in Held(m.attempts[id])
  }

  ghost predicate ExclusiveOk(m: Machine) {
    && MachineOk(m)
    && (forall id :: id in m.attempts ==> SoleOwner(m.world.epoch, m.attempts[id]))
    && MarkerHeld(m)
  }

  /** While the marker is up, only the holder of the current generation can change
      the epoch, and nobody else enters a critical section. */
  lemma MarkerShields(w: World, pc: Pc, c: Choice)
    requires Ready(w, pc, c)
    requires !w.epoch.closed && w.epoch.pendingRecovery.Some? && w.epoch.gen !in Held(pc)
    ensures Advance(w, pc, c).0.epoch == w.epoch
    ensures Critical(Advance(w, pc, c).1) ==> Critical(pc)
  {
  }

  lemma OwnerStaysSole(w: World, pc: Pc, c: Choice)
    requires Ready(w, pc, c) && SoleOwner(w.epoch, pc)
    ensures SoleOwner(Advance(w, pc, c).0.epoch, Advance(w, pc, c).1)
  {
  }

  /** A step that leaves the marker up either still holds the current generation or
      did not hold it and changed nothing. */
  lemma OwnerStep(w: World, pc: Pc, c: Choice)
    requires Ready(w, pc, c) && SoleOwner(w.epoch, pc)
    ensures var (w', pc') := Advance(w, pc, c);
            !w'.epoch.closed && w'.epoch.pendingRecovery.Some? && w'.epoch.gen !in Held(pc') && !w'.panicked ==>
              w'.epoch == w.epoch && w.epoch.gen !in Held(pc)
  {
  }

  lemma OthersStaySole(m: Machine, id: AttemptId, c: Choice, j: AttemptId)
    requires ExclusiveOk(m) && Enabled(m, Act(id, c)) && j in m.attempts && j != id
    ensures SoleOwner(Next(m, Act(id, c)).world.epoch, m.attempts[j])
  {
    if Critical(m.attempts[j]) && !m.world.epoch.closed {
      assert m.attempts[j].g in Held(m.attempts[j]);
      assert Apart(m.attempts[j], m.attempts[id]);
      MarkerShields(m.world, m.attempts[id], c);
    } else {
      AdvanceOk(m.world, m.attempts[id], c);
    }
  }

  lemma MarkerStaysHeld(m: Machine, id: AttemptId, c: Choice)
    requires ExclusiveOk(m) && Enabled(m, Act(id, c))
    ensures MarkerHeld(Next(m, Act(id, c)))
  {
    var m' := Next(m, Act(id, c));
    var e' := m'.world.epoch;
    OwnerStep(m.world, m.attempts[id], c);
    if !m'.world.panicked && !e'.closed && e'.pendingRecovery.Some? && e'.gen !in Held(m'.attempts[id]) {
      var j :| j in m.attempts && e'.gen in Held(m.attempts[j]);
      assert m'.attempts[j] == m.attempts[j];
    }
  }

  lemma ActKeepsExclusive(m: Machine, id: AttemptId, c: Choice)
    requires ExclusiveOk(m) && Enabled(m, Act(id, c))
    ensures ExclusiveOk(Next(m, Act(id, c)))
  {
    ActKeepsMachine(m, id, c);
    MarkerStaysHeld(m, id, c);
    var m' := Next(m, Act(id, c));
    forall j | j in m'.attempts
      ensures SoleOwner(m'.world.epoch, m'.attempts[j])
    {
      if j == id {
        OwnerStaysSole(m.world, m.attempts[id], c);
      } else {
        OthersStaySole(m, id, c, j);
      }
    }
  }

  lemma NextKeepsExclusive(m: Machine, ev: Event)
    requires ExclusiveOk(m) && Enabled(m, ev) && !Disturbs(m, ev)
    ensures ExclusiveOk(Next(m, ev))
  {
    NextKeepsMachine(m, ev);
    match ev
    case Act(id, c) => ActKeepsExclusive(m, id, c);
    case Spawn(id, pc) =>
      var e := m.world.epoch;
      if !e.closed && e.pendingRecovery.Some? {
        var j :| j in m.attempts && e.gen in Held(m.attempts[j]);
        assert Next(m, ev).attempts[j] == m.attempts[j];
      }
    case Shutdown(_) =>
    case RawNextGen =>
  }

  // ----- what a raw reservation during a recovery does

  /** The marker is up and nobody holds the current generation to take it down. */
  ghost predicate Wedged(m: Machine) {
    var e := m.world.epoch;
    && !e.closed && e.pendingRecovery.Some?
    && (forall id :: id in m.attempts ==> e.gen !in Held(m.attempts[id]))
  }

  ghost predicate OneCritical(m: Machine) {
    forall i, j :: i in m.attempts && j in m.attempts && Critical(m.attempts[i]) && Critical(m.attempts[j]) ==> i == j
  }

  ghost predicate WedgedOk(m: Machine) {
    MachineOk(m) && Wedged(m) && OneCritical(m)
  }

  lemma ExclusiveHasOneCritical(m: Machine)
    requires ExclusiveOk(m) && !m.world.epoch.closed
    ensures OneCritical(m)
  {
    forall i, j | i in m.attempts && j in m.attempts && Critical(m.attempts[i]) && Critical(m.attempts[j]) ensures i == j {
      CriticalHolds(m.attempts[i]);
      CriticalHolds(m.attempts[j]);
    }
  }

  lemma CriticalHolds(pc: Pc)
    requires Critical(pc)
    ensures pc.g in Held(pc)
  {
  }

  lemma DisturbanceWedges(m: Machine, ev: Event)
    requires ExclusiveOk(m) && Enabled(m, ev) && Disturbs(m, ev)
    ensures WedgedOk(Next(m, ev))
  {
    NextKeepsMachine(m, ev);
    ExclusiveHasOneCritical(m);
    forall id | id in m.attempts ensures Next(m, ev).world.epoch.gen !in Held(m.attempts[id]) {
      assert AttemptOk(m.world, m.attempts[id]);
    }
  }

  lemma ActStaysWedged(m: Machine, id: AttemptId, c: Choice)
    requires WedgedOk(m) && Enabled(m, Act(id, c))
    ensures Next(m, Act(id, c)).world.epoch == m.world.epoch
    ensures WedgedOk(Next(m, Act(id, c)))
  {
    ActKeepsMachine(m, id, c);
    MarkerShields(m.world, m.attempts[id], c);
    AdvanceOk(m.world, m.attempts[id], c);
    var m' := Next(m, Act(id, c));
    assert AttemptOk(m'.world, m'.attempts[id]);
    forall j | j in m'.attempts ensures m.world.epoch.gen !in Held(m'.attempts[j]) {
    }
  }

  /** Nothing but shutdown ends it: no step takes the marker down or replaces the tunnel. */
  lemma StaysWedged(m: Machine, ev: Event)
    requires WedgedOk(m) && Enabled(m, ev)
    ensures var e, e' := m.world.epoch, Next(m, ev).world.epoch;
            e'.closed || (WedgedOk(Next(m, ev)) && e'.active == e.active && e'.pendingRecovery == e.pendingRecovery)
  {
    NextKeepsMachine(m, ev);
    match ev
    case Act(id, c) => ActStaysWedged(m, id, c);
    case Spawn(id, pc) =>
    case Shutdown(_) =>
    case RawNextGen =>
      forall id | id in m.attempts ensures Next(m, ev).world.epoch.gen !in Held(m.attempts[id]) {
        assert AttemptOk(m.world, m.attempts[id]);
      }
  }

  lemma {:induction false} ClosedForGood(m: Machine, evs: seq<Event>)
    requires MachineOk(m) && m.world.epoch.closed && IsRun(m, evs)
    ensures Run(m, evs).world.epoch.closed
    decreases |evs|
  {
    if evs != [] {
      NextKeepsMachine(m, evs[0]);
      if evs[0].Act? {
        AdvanceOk(m.world, m.attempts[evs[0].id], evs[0].choice);
      }
      ClosedForGood(Next(m, evs[0]), evs[1..]);
    }
  }

  /** Until shutdown the tunnel stays the same and no loss ever gets a reservation. */
  lemma {:induction false} WedgedForGood(m: Machine, evs: seq<Event>, lost: Option<Tunnel>)
    requires WedgedOk(m) && IsRun(m, evs)
    ensures var e, e' := m.world.epoch, Run(m, evs).world.epoch;
            e'.closed || (WedgedOk(Run(m, evs)) && e'.active == e.active && e'.NextGenForTunnel(lost).1 == 0)
    decreases |evs|
  {
    if evs != [] {
      var m' := Next(m, evs[0]);
      NextKeepsMachine(m, evs[0]);
      StaysWedged(m, evs[0]);
      if m'.world.epoch.closed {
        ClosedForGood(m', evs[1..]);
      } else {
        WedgedForGood(m', evs[1..], lost);
      }
    }
  }

  /** A run either keeps one owner of the marker or, from its first disturbing raw
      reservation on, is wedged until shutdown. */
  lemma {:induction false} RunKeepsExclusive(m: Machine, evs: seq<Event>)
    requires ExclusiveOk(m) && IsRun(m, evs)
    ensures var end := Run(m, evs);
            if Harmless(m, evs) then ExclusiveOk(end) else end.world.epoch.closed || WedgedOk(end)
    decreases |evs|
  {
    if evs != [] {
      if Disturbs(m, evs[0]) {
        DisturbanceWedges(m, evs[0]);
        WedgedForGood(Next(m, evs[0]), evs[1..], None);
      } else {
        NextKeepsExclusive(m, evs[0]);
        RunKeepsExclusive(Next(m, evs[0]), evs[1..]);
      }
    }
  }

  // ----- over every run

  /** While the epoch is open at most one attempt is between reservation and release, and
      meanwhile no loss gets a reservation: in every run, raw reservations or not. Its
      commit is accepted exactly when no raw reservation came in between. */
  lemma OneRecoveryAtATime(initial: Tunnel, evs: seq<Event>, i: AttemptId, j: AttemptId)
    requires IsRun(Init(initial), evs)
    requires !Run(Init(initial), evs).world.epoch.closed
    requires i in Run(Init(initial), evs).attempts && j in Run(Init(initial), evs).attempts
    requires Critical(Run(Init(initial), evs).attempts[i])
    ensures var m := Run(Init(initial), evs);
            && (Critical(m.attempts[j]) ==> i == j)
            && (m.attempts[j].RecoverBegin? ==> m.world.epoch.NextGenForTunnel(m.attempts[j].lost).1 == 0)
            && (m.attempts[i].Install? ==>
                  (TryCommit(m.world, m.attempts[i].g, m.attempts[i].t).1 <==> Harmless(Init(initial), evs)))
  {
    var m := Run(Init(initial), evs);
    RunKeepsExclusive(Init(initial), evs);
    assert m.attempts[i].g in Held(m.attempts[i]);
    if Harmless(Init(initial), evs) {
      ExclusiveHasOneCritical(m);
    }
  }

  /** The marker is up on behalf of an unfinished attempt exactly when every raw
      reservation was harmless; otherwise it is up for nobody. */
  lemma MarkerIsReleased(initial: Tunnel, evs: seq<Event>)
    requires IsRun(Init(initial), evs)
    requires !Run(Init(initial), evs).world.epoch.closed && !Run(Init(initial), evs).world.panicked
    ensures var m := Run(Init(initial), evs);
            Harmless(Init(initial), evs) <==>
              (m.world.epoch.pendingRecovery.Some? ==>
                 exists id :: id in m.attempts && m.attempts[id] != Done && m.world.epoch.gen in Held(m.attempts[id]))
  {
    var m := Run(Init(initial), evs);
    RunKeepsExclusive(Init(initial), evs);
    if Harmless(Init(initial), evs) && m.world.epoch.pendingRecovery.Some? {
      var id :| id in m.attempts && m.world.epoch.gen in Held(m.attempts[id]);
      assert m.attempts[id] != Done;
    }
  }

  /** Once all attempts have returned, the next loss gets its reservation exactly when every
      raw reservation was harmless. */
  lemma NextLossIsReservedExactlyWhen(initial: Tunnel, evs: seq<Event>)
    requires IsRun(Init(initial), evs)
    requires var m := Run(Init(initial), evs); !m.world.epoch.closed && !m.world.panicked && Finished(m)
    ensures var e := Run(Init(initial), evs).world.epoch;
            Harmless(Init(initial), evs) <==> e.NextGenForTunnel(e.active).1 != 0
  {
    var m := Run(Init(initial), evs);
    RunKeepsExclusive(Init(initial), evs);
    if Harmless(Init(initial), evs) {
      assert MarkerHeld(m);
    }
  }

  predicate ActiveJammed(w: World) {
    w.epoch.active.Some? && w.epoch.active.value in w.jammed
  }

  // ----- the two conditions are needed

  lemma {:induction false} RunSnoc(m: Machine, evs: seq<Event>, ev: Event)
    requires IsRun(m, evs) && Enabled(Run(m, evs), ev)
    ensures IsRun(m, evs + [ev]) && Run(m, evs + [ev]) == Next(Run(m, evs), ev)
    decreases |evs|
  {
    if evs == [] {
      assert evs + [ev] == [ev];
    } else {
      assert (evs + [ev])[1..] == evs[1..] + [ev];
      RunSnoc(Next(m, evs[0]), evs[1..], ev);
    }
  }

  const QUIET := Choice(false, false, 7)
  const JAM := Choice(false, true, 7)

  /** Appends an event to a run whose last state is known. */
  lemma Extend(m: Machine, evs: seq<Event>, end: Machine, ev: Event) returns (evs': seq<Event>, end': Machine)
    requires IsRun(m, evs) && Run(m, evs) == end && Enabled(end, ev)
    ensures evs' == evs + [ev] && IsRun(m, evs') && Run(m, evs') == end' == Next(end, ev)
  {
    RunSnoc(m, evs, ev);
    return evs + [ev], Next(end, ev);
  }

  /** A recovery of tunnel 0 that has just reserved generation 1. */
  lemma ReservedRun() returns (evs: seq<Event>, m: Machine)
    ensures IsRun(Init(0), evs) && Run(Init(0), evs) == m
    ensures m == Machine(World(EpochState(1, Some(0), false, Some(0), false), {0}, {}, false, {0}, {0}, []),
                         map[0 := Break(Recover, 1, Some(0))])
  {
    evs, m := [], Init(0);
    evs, m := Extend(Init(0), evs, m, Spawn(0, RecoverBegin(Some(0))));
    evs, m := Extend(Init(0), evs, m, Act(0, QUIET));
  }

  /** One raw reservation in the middle of a recovery leaves the marker up although the
      attempt has returned. */
  lemma RawReservationWedges() returns (evs: seq<Event>)
    ensures IsRun(Init(0), evs) && Finished(Run(Init(0), evs)) && Wedged(Run(Init(0), evs))
    ensures !Run(Init(0), evs).world.panicked
  {
    var m;
    evs, m := ReservedRun();
    evs, m := Extend(Init(0), evs, m, RawNextGen);
    evs, m := Extend(Init(0), evs, m, Act(0, QUIET));
    assert m.attempts == map[0 := Start(Recover, 1)];
    evs, m := Extend(Init(0), evs, m, Act(0, QUIET));
    assert m.attempts == map[0 := Release(1)];
    evs, m := Extend(Init(0), evs, m, Act(0, QUIET));
    assert m.attempts == map[0 := Done];
  }

  /** A recovery whose stop cannot close the bind returns as retryable. */
  lemma JammedRun() returns (evs: seq<Event>, m: Machine)
    ensures IsRun(Init(0), evs) && Run(Init(0), evs) == m
    ensures m == Machine(World(EpochState(1, Some(0), false, None, false), {}, {0}, false, {0}, {0}, []), map[0 := Done])
  {
    evs, m := ReservedRun();
    evs, m := Extend(Init(0), evs, m, Act(0, JAM));
    assert m.attempts == map[0 := Release(1)];
    evs, m := Extend(Init(0), evs, m, Act(0, QUIET));
  }

  /** Such a recovery has returned, the next one is granted its reservation, and panics. */
  lemma RetryAfterJammedStopPanics() returns (before: seq<Event>, evs: seq<Event>)
    ensures IsRun(Init(0), before) && Finished(Run(Init(0), before)) && !Run(Init(0), before).world.epoch.closed
    ensures before <= evs && IsRun(Init(0), evs) && Run(Init(0), evs).world.panicked
  {
    var m;
    before, m := JammedRun();
    evs, m := Extend(Init(0), before, m, Spawn(1, RecoverBegin(Some(0))));
    evs, m := Extend(Init(0), evs, m, Act(1, QUIET));
    assert m.attempts[1] == Break(Recover, 2, Some(0));
    evs, m := Extend(Init(0), evs, m, Act(1, QUIET));
  }
}
