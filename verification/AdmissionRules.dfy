/** Core/Enrollment: what each call demands and what it leaves in the tables, in terms of the
    rows alone. */
module AdmissionRules {
  import opened Common
  import opened Enrollment

  /** A request speaks for its key: this protocol, this Core, a proof of possession. */
  predicate Proven(cfg: Config, r: Request) {
    r.version == 1 && r.coreId == cfg.coreId && r.proofOk
  }

  /** Neither a request nor a redemption gets anywhere without; the first lack is named. */
  lemma UnprovenIsRefused(cfg: Config, db: Db, r: Request, verifier: string, env: Env)
    requires !Proven(cfg, r)
    ensures var why := if r.version != 1 then UnsupportedVersion else if r.coreId != cfg.coreId then CoreIdentity else InvalidProof;
            Begin(cfg, db, r, verifier, env) == Redeem(cfg, db, r, env) == (db, Refused(why))
  {
  }

  // ----- completion

  /** Request id has just been enrolled under a fresh Body and peer: receipt, credential and
      membership, stored and in memory, agree on key, owner and permissions. */
  predicate EnrolledAs(db: Db, db': Db, id: string, owner: string, permissions: seq<string>, env: Env) {
    && id !in db.receipts && id in db'.receipts && id in db'.pendings && env.bodyId in db'.bodies
    && env.peer in db'.rows && env.peer in db'.memberships
    && var p, r, b, m := db'.pendings[id], db'.receipts[id], db'.bodies[env.bodyId], db'.rows[env.peer];
       && p.status == Enrolled && env.now < p.expiresAt && p.owner == b.owner == owner
       && p.permissions == r.permissions == b.permissions == permissions
       && r.requestId == id && r.bodyId == m.bodyId == env.bodyId && r.membershipRef == b.membershipRef == m.peer == env.peer
       && r.bodyKey == b.publicKey == p.bodyKey && m.wgKey == Some(p.wgKey) && m.status == MemberActive
       && b.revokedAt.None? && r.issuedAt == b.createdAt == env.now - env.now % 1_000_000_000
       && db'.memberships[env.peer] == m && env.bodyId !in db.bodies && env.peer !in db.rows
  }

  /** Nothing but request id, its receipt, the new Body and peer and its invitation changed. */
  predicate OnlyEnrolls(db: Db, db': Db, id: string, env: Env) {
    && (forall k :: k in db.pendings && k != id ==> k in db'.pendings && db'.pendings[k] == db.pendings[k])
    && (forall k :: k in db.receipts ==> k in db'.receipts && db'.receipts[k] == db.receipts[k])
    && (forall k :: k in db.bodies ==> k in db'.bodies && db'.bodies[k] == db.bodies[k])
    && (forall k :: k in db.rows ==> k in db'.rows && db'.rows[k] == db.rows[k])
  }

  /** Completion enrolls the request in full or changes nothing; a receipt it returns is the
      stored one. */
  lemma CompletionIsAllOrNothing(cfg: Config, db: Db, id: string, owner: string, permissions: seq<string>, env: Env)
    requires id in db.pendings
    ensures var (db', reply) := Complete(cfg, db, id, owner, permissions, env);
            && (db' != db ==>
                  && db.pendings[id].status == Waiting && EnrolledAs(db, db', id, owner, permissions, env)
                  && OnlyEnrolls(db, db', id, env)
                  && (db.pendings[id].invitationId != "" ==> Spends(db, db', db.pendings[id].invitationId)))
            && (reply.Receipted? ==> id in db'.receipts && reply.receipt == db'.receipts[id])
  {
  }

  /** The invitation was good for one more use and is now spent. */
  predicate Spends(db: Db, db': Db, inv: string) {
    && inv in db.invitations && !db.invitations[inv].consumed
    && inv in db'.invitations && db'.invitations[inv] == db.invitations[inv].(consumed := true)
  }

  // ----- redemption

  predicate FitToStore(r: Request) {
    r.requestId != "" && |r.requestId| <= 128 && r.metadataBytes <= 1024
  }

  /** Whatever a redemption changes or returns, it takes a proven request with the secret of
      the invitation it names. To change anything the invitation must be unspent and in time,
      and a row that is new must be fit to store. */
  lemma RedeemNeedsTheSecret(cfg: Config, db: Db, r: Request, env: Env)
    requires Redeem(cfg, db, r, env).0 != db || Redeem(cfg, db, r, env).1.Receipted?
    ensures Proven(cfg, r)
    ensures r.invitationId in db.invitations && db.invitations[r.invitationId].secretHash == r.secretHash
    ensures Redeem(cfg, db, r, env).0 != db ==>
              !db.invitations[r.invitationId].consumed && env.now <= db.invitations[r.invitationId].expiresAt
    ensures r.requestId in Redeem(cfg, db, r, env).0.pendings && r.requestId !in db.pendings ==> FitToStore(r)
  {
  }

  /** The tables a redemption completes on: with its own row in place. */
  lemma RedeemCompletes(cfg: Config, db: Db, r: Request, env: Env) returns (before: Db)
    requires r.requestId !in db.receipts && r.requestId in Redeem(cfg, db, r, env).0.receipts
    ensures r.requestId in before.pendings && before == db.(pendings := before.pendings)
    ensures before.pendings[r.requestId].bodyKey == r.bodyKey && before.pendings[r.requestId].invitationId == r.invitationId
    ensures r.invitationId in db.invitations && env.now <= db.invitations[r.invitationId].expiresAt
    ensures Redeem(cfg, db, r, env) ==
            Complete(cfg, before, r.requestId, "invitation", db.invitations[r.invitationId].permissions, env)
  {
    if ReadFails !in env.faults && r.requestId in db.pendings {
      return db;
    } else {
      return db.(pendings := db.pendings[r.requestId := NewPending(cfg, r, Invited, None, r.invitationId, env.now)]);
    }
  }

  /** A request enrolled by redemption had an invitation that was unspent and in time, and got
      exactly its permissions. */
  lemma RedeemEnrolls(cfg: Config, db: Db, r: Request, env: Env)
    requires "" !in db.invitations && r.requestId !in db.receipts && r.requestId in Redeem(cfg, db, r, env).0.receipts
    ensures var db' := Redeem(cfg, db, r, env).0;
            && Spends(db, db', r.invitationId) && env.now <= db.invitations[r.invitationId].expiresAt
            && EnrolledAs(db, db', r.requestId, "invitation", db.invitations[r.invitationId].permissions, env)
            && db'.pendings[r.requestId].bodyKey == r.bodyKey
  {
    var before := RedeemCompletes(cfg, db, r, env);
    var permissions := db.invitations[r.invitationId].permissions;
    CompletionIsAllOrNothing(cfg, before, r.requestId, "invitation", permissions, env);
    CompletionKeepsTheRow(cfg, before, r.requestId, "invitation", permissions, env);
  }

  lemma CompletionKeepsTheRow(cfg: Config, db: Db, id: string, owner: string, permissions: seq<string>, env: Env)
    requires id in db.pendings
    ensures var db' := Complete(cfg, db, id, owner, permissions, env).0;
            id in db'.pendings && db'.pendings[id] == db.pendings[id].(status := db'.pendings[id].status,
              owner := db'.pendings[id].owner, permissions := db'.pendings[id].permissions)
  {
  }

  /** A good redemption succeeds: new request, key and nonce, the invitation's secret in time,
      fresh identifiers and nothing failing. */
  lemma GoodRedemptionSucceeds(cfg: Config, db: Db, r: Request, env: Env)
    requires Inv(cfg, db) && Proven(cfg, r) && env.faults == {} && 0 < |r.requestId| <= 128 && r.metadataBytes <= 1024
    requires r.requestId !in db.pendings && cfg.lifetime > 1_000_000_000
    requires forall k :: k in db.pendings ==> db.pendings[k].bodyKey != r.bodyKey || db.pendings[k].nonce != r.nonce
    requires forall b :: b in db.bodies ==> db.bodies[b].publicKey != r.bodyKey && db.bodies[b].membershipRef != env.peer
    requires r.invitationId in db.invitations && db.invitations[r.invitationId].secretHash == r.secretHash
    requires !db.invitations[r.invitationId].consumed && env.now <= db.invitations[r.invitationId].expiresAt
    requires env.bodyId != "" && env.peer != "" && env.bodyId !in db.bodies && env.peer !in db.rows
    requires forall k :: k in db.rows ==> db.rows[k].bodyId != env.bodyId && db.rows[k].overlay != cfg.addressOf(env.peer)
    ensures var (db', reply) := Redeem(cfg, db, r, env);
            && reply.Receipted? && r.requestId in db'.receipts && reply.receipt == db'.receipts[r.requestId]
            && reply.receipt.bodyKey == r.bodyKey && reply.receipt.permissions == db.invitations[r.invitationId].permissions
  {
    var p := NewPending(cfg, r, Invited, None, r.invitationId, env.now);
    var before := db.(pendings := db.pendings[r.requestId := p]);
    assert r.requestId !in db.receipts;
    assert CanInsert(db, r.requestId, p);
    assert env.now < p.expiresAt;
    assert CanCommit(before, r.requestId, env);
    assert NetworkAdmits(cfg, before.memberships, env);
  }

  // ----- requests by the Body

  predicate Waits(p: Pending, now: int) {
    p.status == Waiting && p.expiresAt > now
  }

  /** A request to be approved is entered exactly as it was made, for a proven key, under an
      unused code, and nothing else changes. */
  lemma BeginEnters(cfg: Config, db: Db, r: Request, verifier: string, env: Env)
    requires Begin(cfg, db, r, verifier, env).0 != db
    ensures var db' := Begin(cfg, db, r, verifier, env).0;
            var at := env.now - env.now % 1_000_000_000;
            && Proven(cfg, r) && FitToStore(r) && r.requestId !in db.pendings && r.requestId in db'.pendings
            && (forall k :: k in db.pendings ==> db.pendings[k].verifier != Some(verifier))
            && db' == db.(pendings := db.pendings[r.requestId := db'.pendings[r.requestId]])
            && var p := db'.pendings[r.requestId];
               && p.mode == BodyRequest && p.bodyKey == r.bodyKey && p.wgKey == r.wgKey && p.nonce == r.nonce
               && p.verifier == Some(verifier) && p.status == Waiting && p.attempts == 0 && p.invitationId == ""
               && p.createdAt == at && p.expiresAt == at + cfg.lifetime
  {
  }

  /** A good request is entered: below the limit, new, and nothing failing. */
  lemma GoodRequestIsEntered(cfg: Config, db: Db, r: Request, verifier: string, env: Env)
    requires Proven(cfg, r) && env.faults == {} && 0 < |r.requestId| <= 128 && r.metadataBytes <= 1024
    requires |set k | k in db.pendings && db.pendings[k].status == Waiting| < cfg.maxPending && r.requestId !in db.pendings
    requires forall k :: k in db.pendings ==>
               db.pendings[k].verifier != Some(verifier) && (db.pendings[k].bodyKey != r.bodyKey || db.pendings[k].nonce != r.nonce)
    ensures var (db', reply) := Begin(cfg, db, r, verifier, env);
            r.requestId in db'.pendings && reply == Awaiting(r.requestId, r.bodyKey, db'.pendings[r.requestId].expiresAt)
  {
    NotLimitedBelowTheLimit(cfg, db, r, verifier, env);
    assert WaitingCount(db, env.now) < cfg.maxPending;
  }

  /** No more requests wait than the limit allows, once a Body has entered one. */
  lemma BeginRespectsTheLimit(cfg: Config, db: Db, r: Request, verifier: string, env: Env)
    requires Begin(cfg, db, r, verifier, env).0 != db
    ensures var db' := Begin(cfg, db, r, verifier, env).0;
            |set k | k in db'.pendings && Waits(db'.pendings[k], env.now)| <= cfg.maxPending
  {
    var db' := Begin(cfg, db, r, verifier, env).0;
    BeginEnters(cfg, db, r, verifier, env);
    var counted := set k | k in db.pendings && Counts(db.pendings[k], env.now);
    var waiting := set k | k in db'.pendings && Waits(db'.pendings[k], env.now);
    assert waiting <= counted + {r.requestId};
    NoLarger(waiting, counted + {r.requestId});
  }

  /** And below the limit nobody is turned away for it. */
  lemma NotLimitedBelowTheLimit(cfg: Config, db: Db, r: Request, verifier: string, env: Env)
    requires |set k | k in db.pendings && db.pendings[k].status == Waiting| < cfg.maxPending
    ensures Begin(cfg, db, r, verifier, env).1 != Refused(RateLimited)
  {
    var counted := set k | k in db.pendings && Counts(db.pendings[k], env.now);
    NoLarger(counted, set k | k in db.pendings && db.pendings[k].status == Waiting);
  }

  // ----- the owner's decisions

  /** The owner is named and authorized, and id is the request with the code. */
  predicate OwnerDecides(db: Db, id: string, verifier: string, owner: string, env: Env) {
    owner != "" && env.authorized && id in db.pendings && db.pendings[id].verifier == Some(verifier)
  }

  /** Only an authorized owner with the code approves, before too many failed proofs, and the
      request is enrolled with that owner and those permissions. */
  lemma ApproveNeedsTheOwner(cfg: Config, db: Db, verifier: string, owner: string, permissions: seq<string>, env: Env)
    returns (id: string)
    requires var (db', reply) := Approve(cfg, db, verifier, owner, permissions, env); db' != db || reply.Receipted?
    ensures OwnerDecides(db, id, verifier, owner, env) && db.pendings[id].attempts < cfg.maxAttempts
    ensures var db' := Approve(cfg, db, verifier, owner, permissions, env).0;
            db' != db ==> db.pendings[id].status == Waiting && EnrolledAs(db, db', id, owner, permissions, env) && OnlyEnrolls(db, db', id, env)
  {
    id := ByVerifier(db, verifier).value;
    CompletionIsAllOrNothing(cfg, db, id, owner, permissions, env);
  }

  /** A good approval succeeds: a waiting request in time, an authorized owner, fresh
      identifiers and nothing failing. */
  lemma GoodApprovalSucceeds(cfg: Config, db: Db, id: string, verifier: string, owner: string, permissions: seq<string>, env: Env)
    requires Inv(cfg, db) && OwnerDecides(db, id, verifier, owner, env) && env.faults == {}
    requires db.pendings[id].status == Waiting && env.now < db.pendings[id].expiresAt && db.pendings[id].attempts < cfg.maxAttempts
    requires db.pendings[id].invitationId == ""
    requires forall b :: b in db.bodies ==> db.bodies[b].publicKey != db.pendings[id].bodyKey && db.bodies[b].membershipRef != env.peer
    requires env.bodyId != "" && env.peer != "" && env.bodyId !in db.bodies && env.peer !in db.rows
    requires forall k :: k in db.rows ==> db.rows[k].bodyId != env.bodyId && db.rows[k].overlay != cfg.addressOf(env.peer)
    ensures var (db', reply) := Approve(cfg, db, verifier, owner, permissions, env);
            reply.Receipted? && EnrolledAs(db, db', id, owner, permissions, env) && reply.receipt == db'.receipts[id]
  {
    assert ByVerifier(db, verifier) == Some(id);
    assert id !in db.receipts;
    assert CanCommit(db, id, env) && NetworkAdmits(cfg, db.memberships, env);
    CompletionIsAllOrNothing(cfg, db, id, owner, permissions, env);
  }

  /** Only an authorized owner with the code denies, a waiting request before it expires, and
      nothing else changes. */
  lemma DenyNeedsTheOwner(cfg: Config, db: Db, verifier: string, owner: string, env: Env) returns (id: string)
    requires var (db', reply) := Deny(cfg, db, verifier, owner, env); db' != db || reply == Done
    ensures OwnerDecides(db, id, verifier, owner, env) && db.pendings[id].status == Waiting && env.now <= db.pendings[id].expiresAt
    ensures var (db', reply) := Deny(cfg, db, verifier, owner, env);
            && reply == Done && id in db'.pendings && db'.pendings[id].status == Denied && db'.pendings[id].owner == owner
            && db' == db.(pendings := db.pendings[id := db'.pendings[id]])
  {
    id := ByVerifier(db, verifier).value;
  }

  /** Only an authorized owner revokes. The Body's credential gets the time of the first
      revocation, its membership is revoked, and no other Body is touched. */
  lemma RevokeNeedsTheOwner(cfg: Config, db: Db, body: string, owner: string, env: Env)
    requires Inv(cfg, db)
    requires var (db', reply) := Revoke(db, body, owner, env); db' != db || reply == Done
    ensures owner != "" && env.authorized && body in db.bodies
    ensures var db' := Revoke(db, body, owner, env).0;
            var was, peer := db.bodies[body], db.bodies[body].membershipRef;
            && db'.bodies == db.bodies[body := was.(revokedAt := if was.revokedAt.Some? then was.revokedAt else Some(env.now))]
            && peer in db'.memberships && db'.memberships[peer].status == MemberRevoked && db'.memberships[peer].bodyId == body
            && (forall k :: k in db.memberships && k != peer ==> k in db'.memberships && db'.memberships[k] == db.memberships[k])
            && db'.pendings == db.pendings && db'.receipts == db.receipts && db'.invitations == db.invitations
  {
    assert HasRow(body, db.bodies[body], db.rows);
  }

  /** A failed proof is counted against the request and does nothing else. */
  lemma FailedProofIsCounted(db: Db, id: string)
    ensures var (db', reply) := FailedProof(db, id);
            && reply.Refused? && db' == db.(pendings := db'.pendings) && db'.pendings.Keys == db.pendings.Keys
            && forall k :: k in db.pendings ==>
                 db'.pendings[k] == db.pendings[k].(attempts := db.pendings[k].attempts + if k == id then 1 else 0)
  {
  }

  /** Nothing but an approval or a redemption ever enrolls a request. */
  lemma OnlyApprovalAndRedemptionEnroll(cfg: Config, db: Db, ev: Event, id: string)
    requires id !in db.receipts && id in Perform(cfg, db, ev).0.receipts
    ensures ev.call.CallApprove? || (ev.call.CallRedeem? && ev.call.request.requestId == id)
  {
  }
}
