/** Core/Enrollment/authentication.go and Revoke: what must have happened before a challenge is
    accepted or a session exists, and what the calls come to when nothing interferes. */
module SessionProofs {
  import opened Common
  import opened Authentication

  // ----- evidence found in a run

  /** A challenge in its essence: for which Body and credential it was issued. */
  datatype Issue = Issue(session: nat, body: string, credential: Credential)

  function IssueOf(c: Challenge): Issue {
    Issue(c.session, c.body, c.credential)
  }

  /** `issued` for a Body that could authenticate; `proved` by an ok proof while the stored
      credential was live and still the one of the challenge. */
  datatype Evidence = Evidence(issued: set<Issue>, proved: set<Issue>)

  const NO_EVIDENCE := Evidence({}, {})

  function And(a: Evidence, b: Evidence): Evidence {
    Evidence(a.issued + b.issued, a.proved + b.proved)
  }

  /** The Body may authenticate with this credential now. */
  predicate Current(w: World, body: string, credential: Credential) {
    body in w.stored && w.stored[body] == credential && !credential.revoked && body in w.members
  }

  function Shows(m: Machine, ev: Event): Evidence {
    if !ev.Act? || ev.id !in m.calls || !ev.choice.ok then NO_EVIDENCE
    else
      match m.calls[ev.id]
      case BeginCheck(_, body) =>
        if body in m.world.stored && Current(m.world, body, m.world.stored[body])
        then Evidence({Issue(ev.choice.session, body, m.world.stored[body])}, {}) else NO_EVIDENCE
      case ProveCheck(challenge, _) =>
        if Current(m.world, challenge.body, challenge.credential) then Evidence({}, {IssueOf(challenge)}) else NO_EVIDENCE
      case _ => NO_EVIDENCE
  }

  function Collected(m: Machine, evs: seq<Event>): Evidence
    requires IsRun(m, evs)
    decreases |evs|
  {
    if evs == [] then NO_EVIDENCE else And(Shows(m, evs[0]), Collected(Next(m, evs[0]), evs[1..]))
  }

  predicate Proved(e: Evidence, session: nat) {
    exists i :: i in e.proved && i.session == session
  }

  predicate ProvedFor(e: Evidence, session: nat, body: string) {
    exists i :: i in e.proved && i.session == session && i.body == body
  }

  predicate CallBacked(pc: Pc, e: Evidence) {
    match pc
    case BeginStore(_, challenge) => IssueOf(challenge) in e.issued
    case ProveCheck(challenge, _) => IssueOf(challenge) in e.issued
    case ProveActivate(session, body) => ProvedFor(e, session, body)
    case _ => true
  }

  predicate AcceptanceBacked(w: World, e: Evidence) {
    forall s :: s in w.accepted ==> Proved(e, s)
  }

  predicate SessionsBacked(w: World, e: Evidence) {
    forall s :: s in w.sessions ==> ProvedFor(e, s, w.sessions[s])
  }

  predicate Backed(m: Machine, e: Evidence) {
    && e.proved <= e.issued
    && (forall k :: k in m.world.challenges ==> IssueOf(m.world.challenges[k]) in e.issued)
    && (forall id :: id in m.calls ==> CallBacked(m.calls[id], e))
    && AcceptanceBacked(m.world, e) && SessionsBacked(m.world, e)
  }

  lemma CallStaysBacked(pc: Pc, e: Evidence, more: Evidence)
    requires CallBacked(pc, e)
    ensures CallBacked(pc, And(e, more))
  {
    if pc.ProveActivate? {
      var i :| i in e.proved && i.session == pc.session && i.body == pc.body;
      assert i in And(e, more).proved;
    }
  }

  lemma WorldStaysBacked(w: World, e: Evidence, more: Evidence)
    requires AcceptanceBacked(w, e) && SessionsBacked(w, e)
    ensures AcceptanceBacked(w, And(e, more)) && SessionsBacked(w, And(e, more))
  {
    var e' := And(e, more);
    forall s | s in w.accepted ensures Proved(e', s) {
      var i :| i in e.proved && i.session == s;
      assert i in e'.proved;
    }
    forall s | s in w.sessions ensures ProvedFor(e', s, w.sessions[s]) {
      var i :| i in e.proved && i.session == s && i.body == w.sessions[s];
      assert i in e'.proved;
    }
  }

  lemma AdvanceBacked(m: Machine, id: nat, c: Choice, e: Evidence)
    requires Backed(m, e) && Enabled(m, Act(id, c))
    ensures var (w', pc') := Advance(m.world, m.calls[id], c);
            var e' := And(e, Shows(m, Act(id, c)));
            && e'.proved <= e'.issued && CallBacked(pc', e') && AcceptanceBacked(w', e') && SessionsBacked(w', e')
            && forall k :: k in w'.challenges ==> IssueOf(w'.challenges[k]) in e'.issued
  {
    var pc := m.calls[id];
    var here := Shows(m, Act(id, c));
    var e' := And(e, here);
    assert CallBacked(pc, e);
    CallStaysBacked(pc, e, here);
    WorldStaysBacked(m.world, e, here);
    var (w', pc') := Advance(m.world, pc, c);
    if pc.ProveCheck? && w'.accepted != m.world.accepted {
      assert IssueOf(pc.challenge) in e'.proved;
      assert Proved(e', pc.challenge.session) && ProvedFor(e', pc.challenge.session, pc.challenge.body);
    }
  }

  lemma NextBacked(m: Machine, ev: Event, e: Evidence)
    requires Backed(m, e) && Enabled(m, ev)
    ensures Backed(Next(m, ev), And(e, Shows(m, ev)))
  {
    var m', e' := Next(m, ev), And(e, Shows(m, ev));
    if ev.Act? {
      AdvanceBacked(m, ev.id, ev.choice, e);
    } else {
      WorldStaysBacked(m.world, e, Shows(m, ev));
    }
    forall id | id in m'.calls ensures CallBacked(m'.calls[id], e') {
      if id in m.calls && m'.calls[id] == m.calls[id] {
        CallStaysBacked(m.calls[id], e, Shows(m, ev));
      }
    }
  }

  lemma {:induction false} RunBacked(m: Machine, evs: seq<Event>, e: Evidence)
    requires Backed(m, e) && IsRun(m, evs)
    ensures Backed(Run(m, evs), And(e, Collected(m, evs)))
    decreases |evs|
  {
    if evs == [] {
      assert And(e, NO_EVIDENCE) == e;
    } else {
      var here, rest := Shows(m, evs[0]), Collected(Next(m, evs[0]), evs[1..]);
      NextBacked(m, evs[0], e);
      RunBacked(Next(m, evs[0]), evs[1..], And(e, here));
      assert And(And(e, here), rest) == And(e, And(here, rest));
    }
  }

  /** In every run: whatever was accepted had been issued for a Body that could authenticate,
      and was proved while that very credential was stored and live. The same goes for every
      session, and for the Body it is a session of. */
  lemma NothingIsAcceptedUnproved(evs: seq<Event>)
    requires IsRun(INIT, evs)
    ensures var w, e := Run(INIT, evs).world, Collected(INIT, evs);
            && e.proved <= e.issued
            && (forall s :: s in w.accepted ==> Proved(e, s))
            && (forall s :: s in w.sessions ==> ProvedFor(e, s, w.sessions[s]))
  {
    RunBacked(INIT, evs, NO_EVIDENCE);
    assert And(NO_EVIDENCE, Collected(INIT, evs)) == Collected(INIT, evs);
  }

  // ----- what the calls come to

  /** One proof of a stored challenge, the calls' own steps after the lock is taken: it is
      accepted exactly when it is ok for a credential that is current, opens a session
      exactly when it is also to activate and the transport agrees, and uses the challenge
      up in any case. */
  lemma ProofIsJudged(w: World, connection: string, activates: bool, take: Choice, judge: Choice, open: Choice)
    requires connection in w.challenges
    ensures var challenge := w.challenges[connection];
            var (w1, pc1) := Advance(w, ProveTake(connection, activates), take);
            var (w2, pc2) := Advance(w1, pc1, judge);
            var (w3, pc3) := Advance(w2, pc2, open);
            var good := judge.ok && Current(w, challenge.body, challenge.credential);
            && w3.challenges == w.challenges - {connection} && w3.stored == w.stored && w3.members == w.members
            && w3.accepted == (if good then w.accepted + [challenge.session] else w.accepted)
            && w3.sessions == (if good && activates && open.ok then w.sessions[challenge.session := challenge.body] else w.sessions)
            && (pc3 == ProveUnlock || pc3 == Returned)
  {
  }

  /** A hello from a Body that may authenticate leaves a challenge for its stored credential;
      any other leaves nothing. */
  lemma HelloIsChallenged(w: World, connection: string, body: string, check: Choice, store: Choice)
    ensures var (w1, pc1) := Advance(w, BeginCheck(connection, body), check);
            var (w2, pc2) := Advance(w1, pc1, store);
            if check.ok && body in w.stored && Current(w, body, w.stored[body]) then
              w2 == w.(issued := w.issued + {check.session},
                       challenges := w.challenges[connection := Challenge(check.session, body, w.stored[body])])
            else w2 == w && pc1 == Returned
  {
  }


  /** A revocation alone, after the lock is taken: refused, it changes nothing; otherwise the
      credential is revoked, the membership gone and exactly the Body's sessions dropped,
      whether the refresh succeeds or not. */
  lemma RevocationAlone(w: World, body: string, store: Choice, network: Choice, disconnect: Choice, refresh: Choice)
    ensures var (w1, pc1) := Advance(w, RevokeStore(body), store);
            var (w2, pc2) := Advance(w1, pc1, network);
            var (w3, pc3) := Advance(w2, pc2, disconnect);
            var (w4, pc4) := Advance(w3, pc3, refresh);
            if !store.ok || body !in w.stored then w1 == w && pc1.RevokeUnlock? && !pc1.ok
            else
              && w4.stored == w.stored[body := w.stored[body].(revoked := true)] && w4.members == w.members - {body}
              && (forall s :: s in w4.sessions <==> s in w.sessions && w.sessions[s] != body)
              && (forall s :: s in w4.sessions ==> w4.sessions[s] == w.sessions[s])
              && pc4.RevokeUnlock? && pc4.ok == refresh.ok
  {
  }

  /** In any step: a session ends only by hanging up or by a revocation of its own Body, and a
      credential changes only by its own enrollment or revocation. */
  lemma OthersAreLeftAlone(m: Machine, ev: Event, s: nat, body: string)
    requires Enabled(m, ev)
    ensures var w, w' := m.world, Next(m, ev).world;
            && (s in w.sessions && s !in w'.sessions ==>
                  ev == HangUp(s) || (ev.Act? && m.calls[ev.id] == RevokeDisconnect(w.sessions[s])))
            && (body in w.stored ==>
                  && body in w'.stored
                  && (w'.stored[body] != w.stored[body] ==> ev.Act? && ev.choice.ok && m.calls[ev.id] == RevokeStore(body)))
            && (body in w.members && body !in w'.members ==> ev.Act? && m.calls[ev.id] == RevokeNetwork(body))
  {
  }
}
