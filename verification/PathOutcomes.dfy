/** What the attempts of PathRecovery come to: where an attempt ends that runs on alone from
    any reachable state, and what must have happened in a run before a tunnel is committed. */
module PathOutcomes {
  import opened Common
  import opened PathEpoch
  import opened PathRecovery

  // ----- an attempt running on alone

  function Steps(w: World, pc: Pc, cs: seq<Choice>): (World, Pc)
    decreases |cs|
  {
    if cs == [] then (w, pc)
    else
      var (w', pc') := Advance(w, pc, cs[0]);
      Steps(w', pc', cs[1..])
  }

  lemma StepsCons(w: World, pc: Pc, c: Choice, cs: seq<Choice>)
    ensures var (w', pc') := Advance(w, pc, c);
            Steps(w, pc, [c] + cs) == Steps(w', pc', cs)
  {
    assert ([c] + cs)[1..] == cs;
  }

  lemma {:induction false} StepsConcat(w: World, pc: Pc, a: seq<Choice>, b: seq<Choice>)
    ensures var (w', pc') := Steps(w, pc, a);
            Steps(w, pc, a + b) == Steps(w', pc', b)
    decreases |a|
  {
    if a == [] {
      assert a + b == b;
    } else {
      assert a == [a[0]] + a[1..] && a + b == [a[0]] + (a[1..] + b);
      StepsCons(w, pc, a[0], a[1..]);
      StepsCons(w, pc, a[0], a[1..] + b);
      StepsConcat(Advance(w, pc, a[0]).0, Advance(w, pc, a[0]).1, a[1..], b);
    }
  }

  function Times(c: Choice, n: nat): seq<Choice> {
    if n == 0 then [] else [c] + Times(c, n - 1)
  }

  lemma {:induction false} TimesAdd(c: Choice, a: nat, b: nat)
    ensures Times(c, a) + Times(c, b) == Times(c, a + b)
  {
    if a > 0 {
      TimesAdd(c, a - 1, b);
      assert Times(c, a) + Times(c, b) == [c] + (Times(c, a - 1) + Times(c, b));
    }
  }

  lemma StepsTimes(w: World, pc: Pc, c: Choice, n: nat)
    requires n > 0
    ensures var (w', pc') := Advance(w, pc, c);
            Steps(w, pc, Times(c, n)) == Steps(w', pc', Times(c, n - 1))
  {
    StepsCons(w, pc, c, Times(c, n - 1));
  }

  lemma StepsNone(w: World, pc: Pc, c: Choice)
    ensures Steps(w, pc, Times(c, 0)) == (w, pc)
  {
  }

  /** Whatever is tried succeeds, and the tunnel started is t. */
  function Success(t: Tunnel): Choice {
    Choice(true, false, t)
  }

  /** Generation g has installed t: it is live, active and the last to commit, and the
      in-flight marker is down. */
  predicate Installed(w: World, w': World, g: nat, t: Tunnel) {
    && w'.epoch.active == Some(t) && t in w'.live && w'.log == w.log + [Commit(g, t)]
    && w'.epoch.pendingRecovery.None? && !w'.panicked
  }

  lemma StartInstalls(w: World, flow: Flow, g: nat, t: Tunnel)
    requires Owns(w, g) && !w.panicked
    ensures var (w', pc') := Steps(w, Start(flow, g), Times(Success(t), 3));
            Installed(w, w', g, t) && pc' == if flow.Rollback? then DiscoverLoop(g) else Done
  {
    var s := Success(t);
    var (w1, pc1) := Advance(w, Start(flow, g), s);
    var (w2, pc2) := Advance(w1, pc1, s);
    var (w3, pc3) := Advance(w2, pc2, s);
    StepsTimes(w, Start(flow, g), s, 3);
    StepsTimes(w1, pc1, s, 2);
    StepsTimes(w2, pc2, s, 1);
    StepsNone(w3, pc3, s);
  }

  lemma BreakInstalls(w: World, flow: Flow, g: nat, t: Tunnel)
    requires Owns(w, g) && w.epoch.active.Some? && !w.panicked
    ensures var (w', pc') := Steps(w, Break(flow, g, w.epoch.active), Times(Success(t), 4));
            if ActiveJammed(w) then w'.epoch.active == w.epoch.active && pc' == Crashed
            else Installed(w, w', g, t) && pc' == if flow.Rollback? then DiscoverLoop(g) else Done
  {
    var s := Success(t);
    var (w1, pc1) := Advance(w, Break(flow, g, w.epoch.active), s);
    StepsTimes(w, Break(flow, g, w.epoch.active), s, 4);
    if ActiveJammed(w) {
      Stays(w1, Crashed, Times(s, 3));
    } else {
      StartInstalls(w1, flow, g, t);
    }
  }

  lemma {:induction false} Stays(w: World, pc: Pc, cs: seq<Choice>)
    requires pc == Done || pc == Crashed
    ensures Steps(w, pc, cs) == (w, pc)
    decreases |cs|
  {
    if cs != [] {
      Stays(w, pc, cs[1..]);
    }
  }

  // ----- recovery

  /** With every attempt returned and a path available, the loss of the active tunnel is
      recovered exactly when no raw reservation disturbed a recovery and the tunnel is not
      jammed. If it is jammed the retry panics; otherwise it is refused. */
  lemma NextLossIsRecoveredExactlyWhen(initial: Tunnel, evs: seq<Event>, created: Tunnel)
    requires IsRun(Init(initial), evs)
    requires var m := Run(Init(initial), evs);
             !m.world.epoch.closed && !m.world.panicked && Finished(m) && created !in m.world.used
    ensures var w := Run(Init(initial), evs).world;
            var (w', pc') := Steps(w, RecoverBegin(w.epoch.active), Times(Success(created), 5));
            && (w'.epoch.active == Some(created) <==> Harmless(Init(initial), evs) && !ActiveJammed(w))
            && (pc' == Crashed <==> Harmless(Init(initial), evs) && ActiveJammed(w))
            && (pc' != Crashed ==> pc' == Done)
  {
    var m := Run(Init(initial), evs);
    var w := m.world;
    RunKeepsMachine(Init(initial), evs);
    RunKeepsExclusive(Init(initial), evs);
    if Harmless(Init(initial), evs) {
      assert w.epoch.pendingRecovery.None?;
    }
    RecoveryAlone(w, created);
  }

  lemma RecoveryAlone(w: World, t: Tunnel)
    requires WorldOk(w) && !w.epoch.closed && !w.panicked && t !in w.used
    ensures var (w', pc') := Steps(w, RecoverBegin(w.epoch.active), Times(Success(t), 5));
            if w.epoch.pendingRecovery.Some? then w' == w && pc' == Done
            else if ActiveJammed(w) then w'.epoch.active == w.epoch.active && pc' == Crashed
            else w'.epoch.active == Some(t) && pc' == Done
  {
    var s := Success(t);
    var (w1, pc1) := Advance(w, RecoverBegin(w.epoch.active), s);
    StepsTimes(w, RecoverBegin(w.epoch.active), s, 5);
    if w.epoch.pendingRecovery.Some? {
      Stays(w1, Done, Times(s, 4));
    } else {
      BreakInstalls(w1, Recover, w1.epoch.gen, t);
    }
  }

  /** A choice, or two, that make the attempt's next stop, start or handshake fail. A tunnel
      without a handshake is stopped in the second. */
  predicate Fails(w: World, pc: Pc, cs: seq<Choice>) {
    match pc
    case Break(_, _, lost) => |cs| == 1 && lost.Some? && lost.value in w.live && cs[0].bindFails
    case Start(_, _) => |cs| == 1 && !cs[0].ok
    case Handshake(_, _, _) => |cs| == 2 && !cs[0].ok
    case Abandon(_, _, _) => |cs| == 1
    case _ => false
  }

  /** What a failure leaves: the epoch as it was, nothing new, and at most the stopped
      tunnel gone. */
  predicate Unchanged(w: World, w': World) {
    w'.epoch == w.epoch && w'.log == w.log && w'.panicked == w.panicked && w'.live <= w.live
  }

  lemma StopFails(w: World, pc: Pc, cs: seq<Choice>)
    requires WorldOk(w) && AttemptOk(w, pc) && Fails(w, pc, cs)
    ensures var (w', pc') := Steps(w, pc, cs);
            && Unchanged(w, w')
            && (pc.flow.Cutover? ==> pc' == Start(Rollback, pc.g))
            && (pc.flow.Rollback? ==> pc' == DiscoverLoop(pc.g))
            && (pc.flow.Recover? ==> pc' == if pc.Break? || pc.Start? then Release(pc.g) else Start(Recover, pc.g))
  {
    var (w1, pc1) := Advance(w, pc, cs[0]);
    assert cs == [cs[0]] + cs[1..];
    StepsCons(w, pc, cs[0], cs[1..]);
    if pc.Handshake? {
      assert cs[1..] == [cs[1]] + [];
      StepsCons(w1, pc1, cs[1], []);
    } else {
      assert cs[1..] == [];
    }
  }

  /** In every run: a cutover whose stop, start or handshake fails while its generation is
      still current goes on to bring up and commit a tunnel in place of the one it broke. */
  lemma FailedCutoverRollsBack(initial: Tunnel, evs: seq<Event>, id: AttemptId, fail: seq<Choice>, t: Tunnel)
    requires IsRun(Init(initial), evs) && id in Run(Init(initial), evs).attempts
    requires var m := Run(Init(initial), evs);
             var pc := m.attempts[id];
             !m.world.panicked && Fails(m.world, pc, fail) && pc.flow.Cutover? && Owns(m.world, pc.g)
    ensures var m := Run(Init(initial), evs);
            var pc := m.attempts[id];
            var (w', pc') := Steps(m.world, pc, fail + Times(Success(t), 3));
            Installed(m.world, w', pc.g, t) && pc' == DiscoverLoop(pc.g)
  {
    var m := Run(Init(initial), evs);
    var pc := m.attempts[id];
    RunKeepsMachine(Init(initial), evs);
    assert AttemptOk(m.world, pc);
    StopFails(m.world, pc, fail);
    StepsConcat(m.world, pc, fail, Times(Success(t), 3));
    StartInstalls(Steps(m.world, pc, fail).0, Rollback, pc.g, t);
  }

  /** A recovery that cannot stop the old tunnel or start a new one returns with its
      marker down and nothing replaced. */
  lemma FailedRecoveryReturns(initial: Tunnel, evs: seq<Event>, id: AttemptId, fail: seq<Choice>, any: Choice)
    requires IsRun(Init(initial), evs) && id in Run(Init(initial), evs).attempts
    requires var m := Run(Init(initial), evs);
             var pc := m.attempts[id];
             Fails(m.world, pc, fail) && pc.flow.Recover? && (pc.Break? || pc.Start?) && Owns(m.world, pc.g)
    ensures var m := Run(Init(initial), evs);
            var (w', pc') := Steps(m.world, m.attempts[id], fail + [any]);
            pc' == Done && w'.epoch == m.world.epoch.(pendingRecovery := None) && w'.log == m.world.log
  {
    var m := Run(Init(initial), evs);
    var pc := m.attempts[id];
    RunKeepsMachine(Init(initial), evs);
    assert AttemptOk(m.world, pc);
    StopFails(m.world, pc, fail);
    StepsConcat(m.world, pc, fail, [any]);
    var (w1, pc1) := Steps(m.world, pc, fail);
    assert [any] == [any] + [];
    StepsCons(w1, pc1, any, []);
  }

  /** A path without a handshake is given up for the next one. */
  lemma RecoveryTriesTheNextPath(initial: Tunnel, evs: seq<Event>, id: AttemptId, fail: seq<Choice>, t: Tunnel)
    requires IsRun(Init(initial), evs) && id in Run(Init(initial), evs).attempts
    requires var m := Run(Init(initial), evs);
             var pc := m.attempts[id];
             !m.world.panicked && Fails(m.world, pc, fail) && pc.flow.Recover? && (pc.Handshake? || pc.Abandon?) && Owns(m.world, pc.g)
    ensures var m := Run(Init(initial), evs);
            var pc := m.attempts[id];
            var (w', pc') := Steps(m.world, pc, fail + Times(Success(t), 3));
            Installed(m.world, w', pc.g, t) && pc' == Done
  {
    var m := Run(Init(initial), evs);
    var pc := m.attempts[id];
    RunKeepsMachine(Init(initial), evs);
    assert AttemptOk(m.world, pc);
    StopFails(m.world, pc, fail);
    StepsConcat(m.world, pc, fail, Times(Success(t), 3));
    StartInstalls(Steps(m.world, pc, fail).0, Recover, pc.g, t);
  }

  // ----- discovery

  lemma DiscoveryReserves(w: World, p: nat, t: Tunnel)
    requires WorldOk(w) && !w.epoch.closed && w.epoch.pendingRecovery.None?
    ensures var (w', pc') := Steps(w, DiscoverLoop(p), Times(Success(t), 3));
            w' == w.(epoch := w.epoch.NextGenForTunnel(w.epoch.active).0) && pc' == MigrateCheck(p, w'.epoch.gen)
  {
    var s := Success(t);
    StepsTimes(w, DiscoverLoop(p), s, 3);
    StepsTimes(w, MigrateRead(p), s, 2);
    StepsTimes(w, MigrateReserve(p, w.epoch.active), s, 1);
    var (w', pc') := Advance(w, MigrateReserve(p, w.epoch.active), s);
    StepsNone(w', pc', s);
  }

  lemma MigrationBreaks(w: World, p: nat, t: Tunnel)
    requires !w.epoch.closed
    ensures Steps(w, MigrateCheck(p, w.epoch.gen), Times(Success(t), 3)) == (w, Break(Cutover, w.epoch.gen, w.epoch.active))
  {
    var s, g := Success(t), w.epoch.gen;
    StepsTimes(w, MigrateCheck(p, g), s, 3);
    StepsTimes(w, CutoverRead(g), s, 2);
    StepsTimes(w, CutoverCheck(g, w.epoch.active), s, 1);
    StepsNone(w, Break(Cutover, g, w.epoch.active), s);
  }

  lemma DiscoveryReaches(w: World, p: nat, t: Tunnel)
    requires WorldOk(w) && !w.epoch.closed && w.epoch.pendingRecovery.None?
    ensures var (w', pc') := Steps(w, DiscoverLoop(p), Times(Success(t), 6));
            w' == w.(epoch := w.epoch.NextGenForTunnel(w.epoch.active).0) && pc' == Break(Cutover, w'.epoch.gen, w'.epoch.active)
  {
    TimesAdd(Success(t), 3, 3);
    StepsConcat(w, DiscoverLoop(p), Times(Success(t), 3), Times(Success(t), 3));
    DiscoveryReserves(w, p, t);
    MigrationBreaks(Steps(w, DiscoverLoop(p), Times(Success(t), 3)).0, p, t);
  }

  /** In every run: discovery that finds the preferred path while nothing is in flight moves
      to it with the next generation, exactly when the active tunnel is not jammed. */
  lemma DiscoveryMigratesExactlyWhen(initial: Tunnel, evs: seq<Event>, p: nat, t: Tunnel)
    requires IsRun(Init(initial), evs)
    requires var w := Run(Init(initial), evs).world;
             !w.epoch.closed && !w.panicked && w.epoch.pendingRecovery.None? && t !in w.used
    ensures var w := Run(Init(initial), evs).world;
            var (w', pc') := Steps(w, DiscoverLoop(p), Times(Success(t), 10));
            if ActiveJammed(w) then pc' == Crashed && w'.epoch.active == w.epoch.active
            else pc' == Done && Installed(w, w', w.epoch.gen + 1, t)
  {
    RunKeepsMachine(Init(initial), evs);
    var w := Run(Init(initial), evs).world;
    TimesAdd(Success(t), 6, 4);
    StepsConcat(w, DiscoverLoop(p), Times(Success(t), 6), Times(Success(t), 4));
    DiscoveryReaches(w, p, t);
    var w' := Steps(w, DiscoverLoop(p), Times(Success(t), 6)).0;
    BreakInstalls(w', Cutover, w'.epoch.gen, t);
  }

  /** Discovery that is cancelled, or refused a probe, returns and releases its ticket. */
  lemma DiscoveryGivesUp(w: World, p: nat, no: Choice, any: Choice)
    requires !no.ok
    ensures var (w', pc') := Steps(w, DiscoverLoop(p), [no, any]);
            && pc' == Done && w' == w.(epoch := w'.epoch) && w'.epoch.active == w.epoch.active
            && (p > 0 && p == w.epoch.gen && !w.epoch.closed ==> w'.epoch.pendingRecovery.None?)
  {
    var (w1, pc1) := Advance(w, DiscoverLoop(p), no);
    assert [no, any] == [no] + [any] && [any] == [any] + [];
    StepsCons(w, DiscoverLoop(p), no, [any]);
    StepsCons(w1, pc1, any, []);
  }

  // ----- what must have happened first

  /** Found in a run: tunnels that were started, tunnels whose handshake completed, and
      generations whose cutover was validated while they were current. */
  datatype Evidence = Evidence(started: set<Tunnel>, shaken: set<Tunnel>, validated: set<nat>)

  const NO_EVIDENCE := Evidence({}, {}, {})

  function And(a: Evidence, b: Evidence): Evidence {
    Evidence(a.started + b.started, a.shaken + b.shaken, a.validated + b.validated)
  }

  /** What one event gives evidence of. */
  function Shows(m: Machine, ev: Event): Evidence {
    if !ev.Act? || ev.id !in m.attempts || !ev.choice.ok then NO_EVIDENCE
    else
      match m.attempts[ev.id]
      case Start(_, _) => NO_EVIDENCE.(started := {ev.choice.created})
      case Handshake(_, _, t) => NO_EVIDENCE.(shaken := {t})
      case CutoverCheck(g, _) => if g == m.world.epoch.gen && !m.world.epoch.closed then NO_EVIDENCE.(validated := {g}) else NO_EVIDENCE
      case _ => NO_EVIDENCE
  }

  function Collected(m: Machine, evs: seq<Event>): Evidence
    requires IsRun(m, evs)
    decreases |evs|
  {
    if evs == [] then NO_EVIDENCE else And(Shows(m, evs[0]), Collected(Next(m, evs[0]), evs[1..]))
  }

  predicate AttemptBacked(pc: Pc, e: Evidence) {
    && (Candidate(pc).Some? ==> Candidate(pc).value in e.started)
    && (pc.Install? || pc.Discard? ==> pc.t in e.shaken)
    && ((pc.Break? || pc.Start? || pc.Handshake? || pc.Abandon? || pc.Install? || pc.Discard?) && !pc.flow.Recover? ==>
          pc.g in e.validated)
  }

  predicate Backed(m: Machine, e: Evidence) {
    && (forall id :: id in m.attempts ==> AttemptBacked(m.attempts[id], e))
    && (forall i :: 0 <= i < |m.world.log| ==> m.world.log[i].tunnel in e.started && m.world.log[i].tunnel in e.shaken)
  }

  lemma NextBacked(m: Machine, ev: Event, e: Evidence)
    requires Backed(m, e) && Enabled(m, ev)
    ensures Backed(Next(m, ev), And(e, Shows(m, ev)))
  {
    var m', e' := Next(m, ev), And(e, Shows(m, ev));
    forall id | id in m'.attempts ensures AttemptBacked(m'.attempts[id], e') {
      if ev.Act? && id == ev.id {
        assert AttemptBacked(m.attempts[id], e);
      } else if id in m.attempts {
        assert AttemptBacked(m.attempts[id], e);
      }
    }
    if ev.Act? {
      assert AttemptBacked(m.attempts[ev.id], e);
    }
  }

  lemma {:induction false} RunBacked(m: Machine, evs: seq<Event>, e: Evidence)
    requires Backed(m, e) && IsRun(m, evs)
    ensures Backed(Run(m, evs), And(e, Collected(m, evs)))
    decreases |evs|
  {
    if evs == [] {
      assert And(e, NO_EVIDENCE) == e;
    } else {
      var here, rest := Shows(m, evs[0]), Collected(Next(m, evs[0]), evs[1..]);
      NextBacked(m, evs[0], e);
      RunBacked(Next(m, evs[0]), evs[1..], And(e, here));
      assert And(And(e, here), rest) == And(e, And(here, rest));
    }
  }

  /** In every run only tunnels that were started and completed their handshake are ever
      committed, and a cutover breaks the active path only after its candidate was
      validated for the current generation. */
  lemma NothingIsReplacedUnproven(initial: Tunnel, evs: seq<Event>)
    requires IsRun(Init(initial), evs)
    ensures var m, e := Run(Init(initial), evs), Collected(Init(initial), evs);
            && (forall i :: 0 <= i < |m.world.log| ==> m.world.log[i].tunnel in e.started && m.world.log[i].tunnel in e.shaken)
            && (forall id :: id in m.attempts && m.attempts[id].Break? && m.attempts[id].flow.Cutover? ==>
                  m.attempts[id].g in e.validated)
  {
    RunBacked(Init(initial), evs, NO_EVIDENCE);
    var m, e := Run(Init(initial), evs), Collected(Init(initial), evs);
    assert And(NO_EVIDENCE, e) == e;
    forall id | id in m.attempts ensures AttemptBacked(m.attempts[id], e) {
    }
  }
}
