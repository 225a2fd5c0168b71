/** Core/Peer/authority.go: what an answer says, in terms of the records alone. */
module AuthorityAnswers {
  import opened Common
  import opened Ordering
  import opened Authority

  lemma TheBasisAnswers(h: History, q: Query, d: Decision)
    requires Accepted(h) && ValidQuery(q) && IsBasis(h, q, d)
    ensures Reconcile(h, q) == Answer(d, q)
  {
    forall e | IsBasis(h, q, e) ensures e == d {
      BasisUnique(h, q, d, e);
    }
  }

  /** The answer prohibits exactly what the basis prohibits and allows exactly what it allows.
      A one-time approval leaves a claim in the name of the attempt, and is rejected without
      one. */
  lemma AnswerFollowsItsBasis(h: History, q: Query, d: Decision)
    requires Accepted(h) && ValidQuery(q) && IsBasis(h, q, d)
    ensures var a := Reconcile(h, q);
            var once := d.effect == Allow && d.use == OneTime;
            && (a.Rejected? <==> once && Blank(q.attemptId))
            && (a.Decided? ==>
                  && a.basis == d.id && !a.defaultAutonomy
                  && (a.effect == EffectiveProhibit <==> d.effect == Prohibit)
                  && (a.effect == EffectiveAllow <==> d.effect == Allow)
                  && (a.pending.Some? <==> once)
                  && (once ==>
                        && a.pending.value.schemaVersion == 1 && a.pending.value.decisionId == d.id
                        && a.pending.value.id == "consume:" + d.id + ":" + q.attemptId
                        && a.pending.value.attemptId == q.attemptId && a.pending.value.correlationId == q.correlationId
                        && a.pending.value.consumedAt == q.at && a.pending.value.provenance == "core:one-time-consumption"))
  {
    TheBasisAnswers(h, q, d);
    assert ValidDecision(d);
  }

  /** With nothing in force the Doll acts on its own, unless approval is demanded. */
  lemma NothingStandingLeavesAutonomy(h: History, q: Query)
    requires Accepted(h) && ValidQuery(q) && forall d :: !Standing(h, q, d)
    ensures var a := Reconcile(h, q);
            && a.Decided? && a.basis == "" && a.pending.None? && a.effect != EffectiveProhibit
            && (a.effect == EffectiveRequireApproval <==> q.requireExplicitApproval)
            && (a.defaultAutonomy <==> !q.requireExplicitApproval)
  {
    DefaultOnlyWhenNothingStands(h, q);
  }

  /** g lets its grantee decide on the scope of d, at the time of d and of the query. */
  predicate Empowers(g: Delegation, d: Decision, at: int) {
    && g.grantee == d.issuer && g.subject == d.subject && g.action == d.action
    && g.issuedAt <= d.issuedAt && g.verifiedAt <= at
    && !(g.expiresAt.Some? && g.expiresAt.value <= at) && !(g.revokedAt.Some? && g.revokedAt.value <= at)
  }

  /** e precedes d: by issue time, then tie breaker, then identifier. */
  predicate Precedes(e: Decision, d: Decision) {
    if e.issuedAt != d.issuedAt then e.issuedAt < d.issuedAt
    else if e.tieBreaker != d.tieBreaker then StringLess(e.tieBreaker, d.tieBreaker)
    else StringLess(e.id, d.id)
  }

  lemma BeforeIsPrecedes(e: Decision, d: Decision)
    ensures Before(OrderKey(e), OrderKey(d)) <==> Precedes(e, d)
  {
    StringTotal(e.tieBreaker, d.tieBreaker);
  }

  lemma OutrankedPrecede(e: Decision, d: Decision)
    requires Outranks(d, e)
    ensures e.role == d.role ==> Precedes(e, d)
    ensures e.role == PrimaryPeer ==> d.role == PrimaryPeer
  {
    BeforeIsPrecedes(e, d);
  }

  lemma BackedIsEmpowered(d: Decision, delegations: seq<Delegation>, at: int)
    requires Delegated(d, delegations, at)
    ensures exists g :: g in delegations && Empowers(g, d, at)
  {
    var g :| g in delegations && Backs(g, d, at);
    assert Empowers(g, d, at);
  }

  /** The basis is a recorded decision in the scope of the query, issued, unexpired, for the
      right occasion, neither claimed nor revoked by the Primary, and from the Primary or
      somebody empowered. Nothing of the same rank in force comes after it. */
  lemma BasisIsInForce(h: History, q: Query, d: Decision)
    requires Accepted(h) && IsBasis(h, q, d)
    ensures d in h.records && (d.effect == Allow || d.effect == Prohibit)
    ensures d.subject == q.subject && d.action == q.action && d.issuedAt <= q.at
    ensures !(d.expiresAt.Some? && d.expiresAt.value <= q.at)
    ensures d.effect == Allow && d.use == OneTime ==> d.correlationId == q.correlationId
    ensures forall c :: c in h.consumptions && c.consumedAt <= q.at ==> c.decisionId != d.id
    ensures forall r :: r in h.records && r.effect == Revoke && r.role == PrimaryPeer && r.issuedAt <= q.at ==> r.revokes != d.id
    ensures d.role == PrimaryPeer || exists g :: g in h.delegations && Empowers(g, d, q.at)
    ensures forall e :: Standing(h, q, e) && e != d && e.role == d.role ==> Precedes(e, d)
  {
    assert ValidDecision(d);
    forall r | r in h.records && r.effect == Revoke && r.role == PrimaryPeer && r.issuedAt <= q.at ensures r.revokes != d.id {
      assert Revokes(r, r.revokes, h.delegations, q.at);
    }
    if d.role != PrimaryPeer {
      BackedIsEmpowered(d, h.delegations, q.at);
    }
    forall e | Standing(h, q, e) && e != d && e.role == d.role ensures Precedes(e, d) {
      OutrankedPrecede(e, d);
    }
  }

  /** p is a decision for the query that nothing has taken back, from somebody entitled. */
  predicate Speaks(h: History, q: Query, p: Decision) {
    && p in h.records && p.effect != Revoke
    && p.subject == q.subject && p.action == q.action && p.issuedAt <= q.at
    && (p.expiresAt.Some? ==> p.expiresAt.value > q.at)
    && (p.effect == Allow && p.use == OneTime ==> p.correlationId == q.correlationId)
    && (forall r :: r in h.records && r.effect == Revoke && r.issuedAt <= q.at ==> r.revokes != p.id)
    && (forall c :: c in h.consumptions && c.consumedAt <= q.at ==> c.decisionId != p.id)
    && (p.role == PrimaryPeer || exists g :: g in h.delegations && Empowers(g, p, q.at))
  }

  lemma SpeakingIsStanding(h: History, q: Query, p: Decision)
    requires Speaks(h, q, p)
    ensures Standing(h, q, p)
  {
    if p.role != PrimaryPeer {
      var g :| g in h.delegations && Empowers(g, p, q.at);
      assert Backs(g, p, q.at);
    }
  }

  /** Whoever is entitled is heard: the answer then rests on some decision of at least that
      rank, and is not the default. */
  lemma EntitledPeersAreHeard(h: History, q: Query, p: Decision) returns (d: Decision)
    requires Accepted(h) && ValidQuery(q) && Speaks(h, q, p)
    ensures IsBasis(h, q, d) && (p.role == PrimaryPeer ==> d.role == PrimaryPeer)
    ensures d == p || d.role != p.role || Precedes(p, d)
  {
    SpeakingIsStanding(h, q, p);
    DefaultOnlyWhenNothingStands(h, q);
    d :| IsBasis(h, q, d);
    if d != p {
      OutrankedPrecede(p, d);
    }
  }

  /** Where the Primary has spoken, the Primary decides: the answer rests on a decision of
      the Primary, the latest or a later one, whatever ordinary peers decided. */
  lemma PrimaryPrevails(h: History, q: Query, p: Decision, d: Decision)
    requires Accepted(h) && ValidQuery(q) && Speaks(h, q, p) && p.role == PrimaryPeer && IsBasis(h, q, d)
    ensures d.role == PrimaryPeer && (d == p || Precedes(p, d))
  {
    var best := EntitledPeersAreHeard(h, q, p);
    BasisUnique(h, q, best, d);
  }

  // ----- what may be relied on in an accepted history

  predicate Attributed(d: Decision) {
    && d.schemaVersion == 1 && d.issuedAt != 0 && !Blank(d.id) && !Blank(d.issuer) && !Blank(d.tieBreaker) && !Blank(d.provenance)
    && !Blank(d.subject.dollId) && !Blank(d.action.capability) && !Blank(d.action.operation)
    && (d.assurance == Account || d.assurance == Reverified) && (d.role == OrdinaryPeer || d.role == PrimaryPeer)
    && !(d.expiresAt.Some? && d.expiresAt.value <= d.issuedAt)
  }

  /** Every decision is attributed, assured and of one kind: an approval for one occasion or
      for all, a prohibition, or a revocation of another decision. */
  lemma DecisionsAreSound(h: History, d: Decision)
    requires Accepted(h) && d in h.records
    ensures Attributed(d)
    ensures d.effect == Allow <==> d.use == OneTime || d.use == Reusable
    ensures d.use == OneTime <==> !Blank(d.correlationId)
    ensures d.effect == Revoke <==> !Blank(d.revokes)
    ensures d.effect == Revoke ==> d.revokes != d.id && d.expiresAt.None?
    ensures forall e :: e in h.records && e.id == d.id ==> e == d
  {
    assert ValidDecision(d) && Blank("");
    forall e | e in h.records && e.id == d.id ensures e == d {
      DistinctMeansSame(h.records, d, e);
    }
  }

  /** Every delegation comes from the Primary, reverified, to somebody else, and could not end
      before it began. */
  lemma DelegationsAreSound(h: History, g: Delegation)
    requires Accepted(h) && g in h.delegations
    ensures g.schemaVersion == 1 && g.grantorRole == PrimaryPeer && g.assurance == Reverified && g.grantor != g.grantee
    ensures !Blank(g.id) && !Blank(g.grantor) && !Blank(g.grantee) && !Blank(g.provenance) && g.issuedAt != 0 && g.verifiedAt != 0
    ensures !Blank(g.subject.dollId) && !Blank(g.action.capability) && !Blank(g.action.operation)
    ensures !(g.expiresAt.Some? && g.expiresAt.value <= g.issuedAt) && !(g.revokedAt.Some? && g.revokedAt.value < g.issuedAt)
  {
  }

  /** Only a query that names its Doll, capability, operation and time is answered. */
  lemma OnlySoundQueriesAreAnswered(h: History, q: Query)
    requires Reconcile(h, q).Decided?
    ensures Accepted(h) && q.at != 0
    ensures !Blank(q.subject.dollId) && !Blank(q.action.capability) && !Blank(q.action.operation)
  {
  }

  /** Every revocation has an earlier target in its scope, which its issuer may revoke. */
  lemma RevocationsHaveTargets(h: History, r: Decision) returns (t: Decision)
    requires Accepted(h) && r in h.records && r.effect == Revoke
    ensures t in h.records && Precedes(t, r) && t.id == r.revokes && t.subject == r.subject && t.action == r.action
    ensures r.role == PrimaryPeer || (t.role == OrdinaryPeer && t.issuer == r.issuer)
  {
    t :| t in h.records && MayRevoke(r, t);
    assert ValidDecision(t);
    BeforeIsPrecedes(t, r);
  }

  /** Every claim has its one-time approval, for the same occasion and in its lifetime. */
  lemma ClaimsHaveApprovals(h: History, c: Consumption) returns (d: Decision)
    requires Accepted(h) && c in h.consumptions
    ensures d in h.records && d.id == c.decisionId && d.effect == Allow && d.use == OneTime
    ensures d.correlationId == c.correlationId && d.issuedAt <= c.consumedAt
    ensures !(d.expiresAt.Some? && d.expiresAt.value <= c.consumedAt)
    ensures c.schemaVersion == 1 && !Blank(c.id) && !Blank(c.attemptId) && !Blank(c.provenance) && c.consumedAt != 0
  {
    assert HasApproval(c, h.records);
    d :| d in h.records && Claims(c, d);
  }
}
