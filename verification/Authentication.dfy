/** Core/Enrollment/authentication.go against Revoke in Core/Enrollment/service.go: every
    interleaving of challenge, proof and revocation calls. The read/write lifecycle lock
    orders activation against revocation; challenges have a mutex of their own. One step
    is one critical section of that mutex, one store or network access, or one call of
    the transport. */
module Authentication {
  import opened Common

  /** A stored credential, as far as authentication compares it. */
  datatype Credential = Credential(key: string, keyVersion: int, membershipRef: string, revoked: bool)

  /** An issued challenge remembers the credential it was issued for. */
  datatype Challenge = Challenge(session: nat, body: string, credential: Credential)

  /** `members` are the bodies whose membership is active in memory, `sessions` the
      transport's authenticated sessions with their body. The last two fields are history:
      session identifiers issued, and those accepted in order. */
  datatype World = World(
    stored: map<string, Credential>,
    members: set<string>,
    challenges: map<string, Challenge>,
    sessions: map<nat, string>,
    issued: set<nat>,
    accepted: seq<nat>)

  /** A call in progress. Between RevokeStore and RevokeUnlock the write lock is held,
      between ProveTake and ProveUnlock the read lock. */
  datatype Pc =
    | BeginCheck(connection: string, body: string)
    | BeginStore(connection: string, challenge: Challenge)
    | ProveLock(connection: string, activates: bool)
    | ProveTake(connection: string, activates: bool)
    | ProveCheck(challenge: Challenge, activates: bool)
    | ProveActivate(session: nat, body: string)
    | ProveUnlock
    | RevokeLock(body: string)
    | RevokeStore(body: string)
    | RevokeNetwork(body: string)
    | RevokeDisconnect(body: string)
    | RevokeRefresh(body: string)
    | RevokeUnlock(body: string, disconnected: bool, ok: bool)
    | Returned
    | RevokeReturned(body: string, ok: bool)

  /** `ok` is the outcome of whatever the step depends on outside the model: time, proof,
      owner, store, transport. `session` is the identifier a new challenge gets. */
  datatype Choice = Choice(ok: bool, session: nat)

  datatype Machine = Machine(world: World, calls: map<nat, Pc>)

  datatype Event =
    | Call(id: nat, pc: Pc)
    | Act(id: nat, choice: Choice)
    | Enroll(body: string, credential: Credential)
    | Forget(connection: string)   // cancelled or timed out
    | HangUp(session: nat)

  predicate Reading(pc: Pc) {
    pc.ProveTake? || pc.ProveCheck? || pc.ProveActivate? || pc.ProveUnlock?
  }

  predicate Writing(pc: Pc) {
    pc.RevokeStore? || pc.RevokeNetwork? || pc.RevokeDisconnect? || pc.RevokeRefresh? || pc.RevokeUnlock?
  }

  /** The credential may authenticate now. */
  predicate Live(w: World, body: string) {
    body in w.stored && !w.stored[body].revoked && body in w.members
  }

  function Disconnect(sessions: map<nat, string>, body: string): map<nat, string> {
    map s | s in sessions && sessions[s] != body :: sessions[s]
  }

  function Advance(w: World, pc: Pc, c: Choice): (World, Pc) {
    match pc
    case BeginCheck(connection, body) =>
      if c.ok && Live(w, body)
      then (w.(issued := w.issued + {c.session}), BeginStore(connection, Challenge(c.session, body, w.stored[body])))
      else (w, Returned)
    case BeginStore(connection, challenge) => (w.(challenges := w.challenges[connection := challenge]), Returned)
    case ProveLock(connection, activates) => (w, ProveTake(connection, activates))
    case ProveTake(connection, activates) =>
      // every proof attempt consumes the challenge
      if connection in w.challenges
      then (w.(challenges := w.challenges - {connection}), ProveCheck(w.challenges[connection], activates))
      else (w, ProveUnlock)
    case ProveCheck(challenge, activates) =>
      if c.ok && Live(w, challenge.body) && w.stored[challenge.body] == challenge.credential
      then (w.(accepted := w.accepted + [challenge.session]),
            if activates then ProveActivate(challenge.session, challenge.body) else ProveUnlock)
      else (w, ProveUnlock)
    case ProveActivate(session, body) =>
      (if c.ok then w.(sessions := w.sessions[session := body]) else w, ProveUnlock)
    case ProveUnlock => (w, Returned)
    case RevokeLock(body) => (w, RevokeStore(body))
    case RevokeStore(body) =>
      if c.ok && body in w.stored
      then (w.(stored := w.stored[body := w.stored[body].(revoked := true)]), RevokeNetwork(body))
      else (w, RevokeUnlock(body, false, false))
    case RevokeNetwork(body) => (w.(members := w.members - {body}), RevokeDisconnect(body))
    case RevokeDisconnect(body) => (w.(sessions := Disconnect(w.sessions, body)), RevokeRefresh(body))
    case RevokeRefresh(body) => (w, RevokeUnlock(body, true, c.ok))
    case RevokeUnlock(body, _, ok) => (w, RevokeReturned(body, ok))
    case Returned => (w, Returned)
    case RevokeReturned(body, ok) => (w, RevokeReturned(body, ok))
  }

  /** The lock admits readers together and a writer alone. */
  predicate Enabled(m: Machine, ev: Event) {
    match ev
    case Call(id, pc) => id !in m.calls && (pc.BeginCheck? || pc.ProveLock? || pc.RevokeLock?)
    case Act(id, c) =>
      && id in m.calls && c.session !in m.world.issued
      && (m.calls[id].ProveLock? ==> forall j :: j in m.calls ==> !Writing(m.calls[j]))
      && (m.calls[id].RevokeLock? ==> forall j :: j in m.calls ==> !Writing(m.calls[j]) && !Reading(m.calls[j]))
    case Enroll(body, credential) => body !in m.world.stored && !credential.revoked
    case Forget(_) => true
    case HangUp(_) => true
  }

  function Next(m: Machine, ev: Event): Machine
    requires Enabled(m, ev)
  {
    match ev
    case Call(id, pc) => m.(calls := m.calls[id := pc])
    case Act(id, c) =>
      var (w, pc) := Advance(m.world, m.calls[id], c);
      Machine(w, m.calls[id := pc])
    case Enroll(body, credential) =>
      m.(world := m.world.(stored := m.world.stored[body := credential], members := m.world.members + {body}))
    case Forget(connection) => m.(world := m.world.(challenges := m.world.challenges - {connection}))
    case HangUp(session) => m.(world := m.world.(sessions := m.world.sessions - {session}))
  }

  const INIT := Machine(World(map[], {}, map[], map[], {}, []), map[])

  predicate IsRun(m: Machine, evs: seq<Event>)
    decreases |evs|
  {
    evs == [] || (Enabled(m, evs[0]) && IsRun(Next(m, evs[0]), evs[1..]))
  }

  function Run(m: Machine, evs: seq<Event>): Machine
    requires IsRun(m, evs)
    decreases |evs|
  {
    if evs == [] then m else Run(Next(m, evs[0]), evs[1..])
  }

  // ----- revocation ends every session

  predicate IsRevoked(w: World, body: string) {
    body in w.stored && w.stored[body].revoked
  }

  predicate NoSession(w: World, body: string) {
    forall s :: s in w.sessions ==> w.sessions[s] != body
  }

  /** What each call may assume at its program point. */
  predicate CallOk(w: World, pc: Pc) {
    match pc
    case ProveActivate(_, body) => body in w.stored && !w.stored[body].revoked
    case RevokeNetwork(body) => IsRevoked(w, body)
    case RevokeDisconnect(body) => IsRevoked(w, body)
    case RevokeRefresh(body) => IsRevoked(w, body) && NoSession(w, body)
    case RevokeUnlock(body, disconnected, ok) =>
      (ok ==> disconnected) && (disconnected ==> IsRevoked(w, body) && NoSession(w, body))
    case RevokeReturned(body, ok) => ok ==> IsRevoked(w, body) && NoSession(w, body)
    case _ => true
  }

  /** The session's body is revoked only while the revoking call is about to drop it. */
  ghost predicate SessionOk(m: Machine, s: nat)
    requires s in m.world.sessions
  {
    var body := m.world.sessions[s];
    && body in m.world.stored
    && (m.world.stored[body].revoked ==>
          exists id :: id in m.calls && (m.calls[id] == RevokeNetwork(body) || m.calls[id] == RevokeDisconnect(body)))
  }

  /** Two calls do not hold the lock against each other. */
  predicate Compatible(a: Pc, b: Pc) {
    Writing(a) ==> !Writing(b) && !Reading(b)
  }

  ghost predicate LifecycleOk(m: Machine) {
    && (forall id :: id in m.calls ==> CallOk(m.world, m.calls[id]))
    && (forall i, j :: i in m.calls && j in m.calls && i != j ==> Compatible(m.calls[i], m.calls[j]))
    && (forall s :: s in m.world.sessions ==> SessionOk(m, s))
  }

  /** What a step leaves untouched for calls other than its own. */
  lemma OthersKeep(w: World, pc: Pc, c: Choice, other: Pc)
    requires CallOk(w, pc) && CallOk(w, other) && Compatible(pc, other)
    ensures CallOk(Advance(w, pc, c).0, other)
  {
  }

  lemma OwnStep(w: World, pc: Pc, c: Choice)
    requires CallOk(w, pc)
    ensures CallOk(Advance(w, pc, c).0, Advance(w, pc, c).1)
  {
  }

  /** The lock: a call that enters keeps out whoever it must. */
  lemma StaysCompatible(m: Machine, id: nat, c: Choice, j: nat)
    requires LifecycleOk(m) && Enabled(m, Act(id, c)) && j in m.calls && j != id
    ensures var pc' := Next(m, Act(id, c)).calls[id];
            Compatible(pc', m.calls[j]) && Compatible(m.calls[j], pc')
  {
    assert Compatible(m.calls[id], m.calls[j]) && Compatible(m.calls[j], m.calls[id]);
  }

  lemma SessionStaysOk(m: Machine, id: nat, c: Choice, s: nat)
    requires LifecycleOk(m) && Enabled(m, Act(id, c)) && s in Next(m, Act(id, c)).world.sessions
    ensures SessionOk(Next(m, Act(id, c)), s)
  {
    var m' := Next(m, Act(id, c));
    var pc := m.calls[id];
    if s in m.world.sessions && m.world.sessions[s] == m'.world.sessions[s] {
      var body := m.world.sessions[s];
      assert SessionOk(m, s);
      if m.world.stored[body].revoked {
        var k :| k in m.calls && (m.calls[k] == RevokeNetwork(body) || m.calls[k] == RevokeDisconnect(body));
        assert k == id || m'.calls[k] == m.calls[k];
        assert m'.calls[id] == Advance(m.world, pc, c).1;
      } else if pc == RevokeStore(body) {
        assert m'.calls[id] == Advance(m.world, pc, c).1;
      }
    } else {
      assert pc.ProveActivate?;
    }
  }

  lemma ActKeepsLifecycle(m: Machine, id: nat, c: Choice)
    requires LifecycleOk(m) && Enabled(m, Act(id, c))
    ensures LifecycleOk(Next(m, Act(id, c)))
  {
    var m' := Next(m, Act(id, c));
    OwnStep(m.world, m.calls[id], c);
    forall j | j in m'.calls && j != id
      ensures CallOk(m'.world, m'.calls[j]) && Compatible(m'.calls[id], m'.calls[j]) && Compatible(m'.calls[j], m'.calls[id])
    {
      assert Compatible(m.calls[id], m.calls[j]);
      OthersKeep(m.world, m.calls[id], c, m.calls[j]);
      StaysCompatible(m, id, c, j);
    }
    forall s | s in m'.world.sessions
      ensures SessionOk(m', s)
    {
      SessionStaysOk(m, id, c, s);
    }
  }

  lemma EnvironmentKeepsLifecycle(m: Machine, ev: Event)
    requires LifecycleOk(m) && Enabled(m, ev) && !ev.Act?
    ensures LifecycleOk(Next(m, ev))
  {
    var m' := Next(m, ev);
    forall s | s in m'.world.sessions
      ensures SessionOk(m', s)
    {
      assert SessionOk(m, s);
      var body := m.world.sessions[s];
      if m.world.stored[body].revoked {
        var k :| k in m.calls && (m.calls[k] == RevokeNetwork(body) || m.calls[k] == RevokeDisconnect(body));
        assert m'.calls[k] == m.calls[k];
      }
    }
  }

  lemma {:induction false} RunKeepsLifecycle(m: Machine, evs: seq<Event>)
    requires LifecycleOk(m) && IsRun(m, evs)
    ensures LifecycleOk(Run(m, evs))
    decreases |evs|
  {
    if evs != [] {
      if evs[0].Act? {
        ActKeepsLifecycle(m, evs[0].id, evs[0].choice);
      } else {
        EnvironmentKeepsLifecycle(m, evs[0]);
      }
      RunKeepsLifecycle(Next(m, evs[0]), evs[1..]);
    }
  }

  /** Calls that have returned stay returned. */
  lemma {:induction false} ReturnIsFinal(m: Machine, evs: seq<Event>, id: nat)
    requires IsRun(m, evs) && id in m.calls && m.calls[id].RevokeReturned?
    ensures id in Run(m, evs).calls && Run(m, evs).calls[id] == m.calls[id]
    decreases |evs|
  {
    if evs != [] {
      ReturnIsFinal(Next(m, evs[0]), evs[1..], id);
    }
  }

  /** Once Revoke has returned without an error the Body has no session, then or at any
      later point of any run. */
  lemma RevokedBodyHasNoSession(before: seq<Event>, after: seq<Event>, id: nat, body: string)
    requires IsRun(INIT, before) && IsRun(Run(INIT, before), after)
    requires id in Run(INIT, before).calls && Run(INIT, before).calls[id] == RevokeReturned(body, true)
    ensures NoSession(Run(INIT, before).world, body)
    ensures NoSession(Run(Run(INIT, before), after).world, body)
  {
    RunKeepsLifecycle(INIT, before);
    RunKeepsLifecycle(Run(INIT, before), after);
    ReturnIsFinal(Run(INIT, before), after, id);
    assert CallOk(Run(INIT, before).world, Run(INIT, before).calls[id]);
    assert CallOk(Run(Run(INIT, before), after).world, Run(Run(INIT, before), after).calls[id]);
  }

  /** While no revocation is in progress, no revoked Body has a session at all, not even
      after a Revoke that reported an error. */
  lemma QuietMeansNoRevokedSession(evs: seq<Event>, s: nat)
    requires IsRun(INIT, evs) && s in Run(INIT, evs).world.sessions
    requires forall id :: id in Run(INIT, evs).calls ==> !Writing(Run(INIT, evs).calls[id])
    ensures var w := Run(INIT, evs).world;
            w.sessions[s] in w.stored && !w.stored[w.sessions[s]].revoked
  {
    RunKeepsLifecycle(INIT, evs);
    assert SessionOk(Run(INIT, evs), s);
  }

  // ----- a challenge is accepted at most once

  /** The session identifier a call carries between issuing or taking a challenge and
      storing or judging it. */
  function Carried(pc: Pc): Option<nat> {
    match pc
    case BeginStore(_, challenge) => Some(challenge.session)
    case ProveCheck(challenge, _) => Some(challenge.session)
    case _ => None
  }

  predicate Unjudged(w: World, s: nat) {
    s in w.issued && s !in w.accepted
  }

  ghost predicate ChallengesOk(m: Machine) {
    var w := m.world;
    && (forall k :: k in w.challenges ==> Unjudged(w, w.challenges[k].session))
    && (forall k, l :: k in w.challenges && l in w.challenges && k != l ==> w.challenges[k].session != w.challenges[l].session)
    && (forall id :: id in m.calls && Carried(m.calls[id]).Some? ==> CarriesAlone(m, id))
    && (forall s :: s in w.accepted ==> s in w.issued)
    && (forall i, j :: 0 <= i < j < |w.accepted| ==> w.accepted[i] != w.accepted[j])
  }

  /** The identifier is neither stored nor carried by another call. */
  ghost predicate CarriesAlone(m: Machine, id: nat)
    requires id in m.calls && Carried(m.calls[id]).Some?
  {
    var s := Carried(m.calls[id]).value;
    && Unjudged(m.world, s)
    && (forall k :: k in m.world.challenges ==> m.world.challenges[k].session != s)
    && (forall j :: j in m.calls && j != id ==> Carried(m.calls[j]) != Some(s))
  }

  lemma IssueKeeps(m: Machine, id: nat, c: Choice)
    requires ChallengesOk(m) && Enabled(m, Act(id, c)) && m.calls[id].BeginCheck?
    ensures ChallengesOk(Next(m, Act(id, c)))
  {
    var m' := Next(m, Act(id, c));
    forall j | j in m'.calls && Carried(m'.calls[j]).Some?
      ensures CarriesAlone(m', j)
    {
      assert j != id ==> CarriesAlone(m, j);
      forall k | k in m.calls && k != j && Carried(m.calls[k]).Some?
        ensures Carried(m.calls[k]).value in m.world.issued
      {
        assert CarriesAlone(m, k);
      }
    }
  }

  lemma StoreKeeps(m: Machine, id: nat, c: Choice)
    requires ChallengesOk(m) && Enabled(m, Act(id, c)) && m.calls[id].BeginStore?
    ensures ChallengesOk(Next(m, Act(id, c)))
  {
    var m' := Next(m, Act(id, c));
    assert CarriesAlone(m, id);
    forall j | j in m'.calls && Carried(m'.calls[j]).Some?
      ensures CarriesAlone(m', j)
    {
      assert CarriesAlone(m, j);
    }
  }

  lemma TakeKeeps(m: Machine, id: nat, c: Choice)
    requires ChallengesOk(m) && Enabled(m, Act(id, c)) && m.calls[id].ProveTake?
    ensures ChallengesOk(Next(m, Act(id, c)))
  {
    var m' := Next(m, Act(id, c));
    forall j | j in m'.calls && Carried(m'.calls[j]).Some?
      ensures CarriesAlone(m', j)
    {
      if j != id {
        assert CarriesAlone(m, j);
      } else {
        forall k | k in m.calls && k != j && Carried(m.calls[k]).Some?
          ensures Carried(m.calls[k]) != Carried(m'.calls[j])
        {
          assert CarriesAlone(m, k);
        }
      }
    }
  }

  lemma JudgeKeeps(m: Machine, id: nat, c: Choice)
    requires ChallengesOk(m) && Enabled(m, Act(id, c)) && m.calls[id].ProveCheck?
    ensures ChallengesOk(Next(m, Act(id, c)))
  {
    var m' := Next(m, Act(id, c));
    assert CarriesAlone(m, id);
    forall j | j in m'.calls && Carried(m'.calls[j]).Some?
      ensures CarriesAlone(m', j)
    {
      assert CarriesAlone(m, j);
    }
  }

  /** Steps that touch neither challenges nor the accepted identifiers. */
  lemma IdleKeeps(m: Machine, m': Machine)
    requires ChallengesOk(m)
    requires m'.world.challenges.Keys <= m.world.challenges.Keys
    requires forall k :: k in m'.world.challenges ==> m'.world.challenges[k] == m.world.challenges[k]
    requires m'.world.issued == m.world.issued && m'.world.accepted == m.world.accepted
    requires forall j :: j in m'.calls && Carried(m'.calls[j]).Some? ==> j in m.calls && m'.calls[j] == m.calls[j]
    ensures ChallengesOk(m')
  {
    forall j | j in m'.calls && Carried(m'.calls[j]).Some?
      ensures CarriesAlone(m', j)
    {
      assert CarriesAlone(m, j);
    }
  }

  lemma NextKeepsChallenges(m: Machine, ev: Event)
    requires ChallengesOk(m) && Enabled(m, ev)
    ensures ChallengesOk(Next(m, ev))
  {
    if ev.Act? && m.calls[ev.id].BeginCheck? {
      IssueKeeps(m, ev.id, ev.choice);
    } else if ev.Act? && m.calls[ev.id].BeginStore? {
      StoreKeeps(m, ev.id, ev.choice);
    } else if ev.Act? && m.calls[ev.id].ProveTake? {
      TakeKeeps(m, ev.id, ev.choice);
    } else if ev.Act? && m.calls[ev.id].ProveCheck? {
      JudgeKeeps(m, ev.id, ev.choice);
    } else {
      IdleKeeps(m, Next(m, ev));
    }
  }

  lemma {:induction false} RunKeepsChallenges(m: Machine, evs: seq<Event>)
    requires ChallengesOk(m) && IsRun(m, evs)
    ensures ChallengesOk(Run(m, evs))
    decreases |evs|
  {
    if evs != [] {
      NextKeepsChallenges(m, evs[0]);
      RunKeepsChallenges(Next(m, evs[0]), evs[1..]);
    }
  }

  /** No challenge is accepted twice, over any connections and any number of proofs. */
  lemma AcceptedAtMostOnce(evs: seq<Event>, i: nat, j: nat)
    requires IsRun(INIT, evs) && i < j < |Run(INIT, evs).world.accepted|
    ensures Run(INIT, evs).world.accepted[i] != Run(INIT, evs).world.accepted[j]
  {
    RunKeepsChallenges(INIT, evs);
  }
}
