/** Core/Enrollment/service.go and Core/Network/identity.go in place: the service changes
    its tables and the shared network step by step, undoing the network's part when a
    completion fails, and each operation has the effect Enrollment gives it. */
module EnrollmentService {
  import opened Common
  import opened Enrollment

  class Network {
    const addressOf: string -> string
    var memberships: map<string, Membership>

    constructor (addressOf: string -> string)
      ensures this.addressOf == addressOf && memberships == map[]
    {
      this.addressOf := addressOf;
      memberships := map[];
    }

    /** Overlay addresses are derived from the peer. */
    ghost predicate Addressed()
      reads this
    {
      forall p :: p in memberships ==> memberships[p].peer == p && memberships[p].overlay == addressOf(p)
    }

    /** A new membership never displaces another: a known peer has its address taken. */
    method NewMembership(bodyId: string, peer: string) returns (ok: bool)
      requires Addressed()
      modifies this
      ensures ok <==> bodyId != "" && peer != ""
                      && (forall p :: p in old(memberships) ==> old(memberships)[p].bodyId != bodyId)
                      && (forall p :: p in old(memberships) ==> old(memberships)[p].overlay != addressOf(peer))
      ensures !ok ==> memberships == old(memberships)
      ensures ok ==> peer !in old(memberships) && Addressed()
      ensures ok ==> memberships == old(memberships)[peer := Membership(bodyId, peer, None, addressOf(peer), MemberPending)]
    {
      if bodyId == "" { return false; }
      if exists p :: p in memberships && memberships[p].bodyId == bodyId { return false; }
      if peer == "" { return false; }
      var address := addressOf(peer);
      if exists p :: p in memberships && memberships[p].overlay == address { return false; }
      memberships := memberships[peer := Membership(bodyId, peer, None, address, MemberPending)];
      return true;
    }

    method SetBodyWireGuardPublicKey(peer: string, key: string) returns (ok: bool)
      modifies this
      ensures ok <==> peer in old(memberships) && old(memberships)[peer].status != MemberRevoked
      ensures memberships == if ok then old(memberships)[peer := old(memberships)[peer].(wgKey := Some(key))] else old(memberships)
    {
      if peer !in memberships { return false; }
      if memberships[peer].status == MemberRevoked { return false; }
      memberships := memberships[peer := memberships[peer].(wgKey := Some(key))];
      return true;
    }

    method ActivateMembership(peer: string) returns (ok: bool)
      modifies this
      ensures ok <==> peer in old(memberships) && old(memberships)[peer].status != MemberRevoked
      ensures memberships == if ok then old(memberships)[peer := old(memberships)[peer].(status := MemberActive)] else old(memberships)
    {
      if peer !in memberships { return false; }
      if memberships[peer].status == MemberRevoked { return false; }
      memberships := memberships[peer := memberships[peer].(status := MemberActive)];
      return true;
    }

    method RevokeMembership(peer: string) returns (ok: bool)
      modifies this
      ensures ok <==> peer in old(memberships)
      ensures memberships == if ok then old(memberships)[peer := old(memberships)[peer].(status := MemberRevoked)] else old(memberships)
    {
      if peer !in memberships { return false; }
      memberships := memberships[peer := memberships[peer].(status := MemberRevoked)];
      return true;
    }

    method RemoveMembership(peer: string) returns (ok: bool)
      modifies this
      ensures ok <==> peer in old(memberships)
      ensures memberships == old(memberships) - {peer}
    {
      if peer !in memberships { return false; }
      memberships := memberships - {peer};
      return true;
    }
  }

  class Service {
    const cfg: Config
    const network: Network
    var pendings: map<string, Pending>
    var receipts: map<string, Receipt>
    var bodies: map<string, Body>
    var rows: map<string, Membership>
    var invitations: map<string, Invitation>

    constructor (cfg: Config, network: Network)
      requires network.addressOf == cfg.addressOf && network.memberships == map[]
      ensures this.cfg == cfg && this.network == network
      ensures Valid() && Inv(cfg, State())
    {
      this.cfg := cfg;
      this.network := network;
      pendings, receipts, bodies, rows, invitations := map[], map[], map[], map[], map[];
    }

    ghost predicate Valid()
      reads this, network
    {
      network.addressOf == cfg.addressOf && network.Addressed()
    }

    /** The tables and the network as one value. The clock belongs to runs, not to the
        service; operations neither read nor change it. */
    function State(): Db
      reads this, network
    {
      Db(0, pendings, receipts, bodies, rows, invitations, network.memberships)
    }

    /** completeLocked: the membership is created, keyed and activated in memory first,
        and removed again when signing or the transaction fails. */
    method CompleteLocked(id: string, owner: string, permissions: seq<string>, env: Env) returns (reply: Reply)
      requires Valid() && id in pendings
      modifies this, network
      ensures Valid()
      ensures (State(), reply) == Complete(cfg, old(State()), id, owner, permissions, env)
    {
      var p := pendings[id];
      if p.status == Enrolled { return GetReceipt(id, env); }
      if p.status == Denied { return Refused(IsDenied); }
      if env.now >= p.expiresAt { return Refused(IsExpired); }
      ghost var before := network.memberships;
      var created := network.NewMembership(env.bodyId, env.peer);
      if !created { return Refused(NetworkRefused); }
      var keyed := network.SetBodyWireGuardPublicKey(env.peer, p.wgKey);
      var activated := network.ActivateMembership(env.peer);
      assert keyed && activated;
      var member := network.memberships[env.peer];
      assert network.memberships == before[env.peer := NewMember(cfg, p, env)];
      if SignFails in env.faults {
        RollBack(env.peer, before);
        return Refused(StoreFailure);
      }
      var committed, error := StoreComplete(id, owner, permissions, member, env);
      if !committed {
        RollBack(env.peer, before);
        if ReadReceiptFails !in env.faults && id in receipts { return Receipted(receipts[id]); }
        return Refused(error);
      }
      return Receipted(NewReceipt(id, p, permissions, env));
    }

    method RollBack(peer: string, ghost before: map<string, Membership>)
      requires peer !in before && network.memberships.Keys == before.Keys + {peer}
      requires forall p :: p in before ==> network.memberships[p] == before[p]
      modifies network
      ensures network.memberships == before
    {
      var removed := network.RemoveMembership(peer);
      assert network.memberships.Keys == before.Keys;
    }

    /** The completion transaction: all of its statements or none. */
    method StoreComplete(id: string, owner: string, permissions: seq<string>, member: Membership, env: Env)
      returns (ok: bool, error: Error)
      requires id in pendings && member == NewMember(cfg, pendings[id], env)
      modifies this
      ensures ok == CanCommit(old(State()), id, env)
      ensures ok ==> State() == Commit(cfg, old(State()), id, owner, permissions, env).(memberships := network.memberships)
      ensures !ok ==> State() == old(State()) && error == CommitError(old(State()), id, env)
    {
      var p := pendings[id];
      if CommitFails in env.faults { return false, StoreFailure; }
      var newInvitations := invitations;
      if p.invitationId != "" {
        if p.invitationId !in invitations || invitations[p.invitationId].consumed { return false, Replayed; }
        newInvitations := invitations[p.invitationId := invitations[p.invitationId].(consumed := true)];
      }
      if env.bodyId in bodies { return false, StoreFailure; }
      if exists b :: b in bodies && (bodies[b].publicKey == p.bodyKey || bodies[b].membershipRef == env.peer) {
        return false, StoreFailure;
      }
      if env.peer in rows { return false, StoreFailure; }
      if id in receipts { return false, StoreFailure; }
      if p.status != Waiting { return false, Replayed; }
      invitations := newInvitations;
      bodies := bodies[env.bodyId := Body(p.bodyKey, owner, permissions, env.peer, Truncate(env.now), None)];
      rows := rows[env.peer := member];
      receipts := receipts[id := NewReceipt(id, p, permissions, env)];
      pendings := pendings[id := p.(status := Enrolled, owner := owner, permissions := permissions)];
      return true, StoreFailure;
    }

    /** In a consistent state a receipt is found exactly for an enrolled request, and it is
        that request's, for the key it was made with. */
    function GetReceipt(id: string, env: Env): (reply: Reply)
      reads this, network
      ensures reply == ReadReceipt(State(), id, env)
      ensures Inv(cfg, State()) && ReadReceiptFails !in env.faults ==>
                (reply.Receipted? <==> id in pendings && pendings[id].status == Enrolled)
      ensures Inv(cfg, State()) && reply.Receipted? ==>
                reply.receipt.requestId == id && id in pendings && reply.receipt.bodyKey == pendings[id].bodyKey
    {
      if ReadReceiptFails in env.faults then Refused(StoreFailure)
      else if id in receipts then Receipted(receipts[id])
      else Missing
    }

    // ----- operations

    method Insert(id: string, p: Pending, env: Env) returns (ok: bool)
      modifies this
      ensures ok == (CreateFails !in env.faults && CanInsert(old(State()), id, p))
      ensures State() == if ok then old(State()).(pendings := old(pendings)[id := p]) else old(State())
    {
      if CreateFails in env.faults { return false; }
      if id in pendings { return false; }
      if p.verifier.Some? && exists k :: k in pendings && pendings[k].verifier == p.verifier { return false; }
      if exists k :: k in pendings && pendings[k].bodyKey == p.bodyKey && pendings[k].nonce == p.nonce { return false; }
      pendings := pendings[id := p];
      return true;
    }

    method Begin(r: Request, verifier: string, env: Env) returns (reply: Reply)
      requires Valid()
      modifies this
      ensures Valid()
      ensures (State(), reply) == Enrollment.Begin(cfg, old(State()), r, verifier, env)
    {
      if !Authentic(cfg, r) { return Refused(AuthenticError(cfg, r)); }
      if CountFails in env.faults { return Refused(StoreFailure); }
      if WaitingCount(State(), env.now) >= cfg.maxPending { return Refused(RateLimited); }
      if CodeFails in env.faults { return Refused(StoreFailure); }
      if !WellFormed(r) { return Refused(InvalidRequest); }
      var pending := NewPending(cfg, r, BodyRequest, Some(verifier), "", env.now);
      var inserted := Insert(r.requestId, pending, env);
      if !inserted { return Refused(Replayed); }
      if NonceFails in env.faults { return Refused(StoreFailure); }
      if SignFails in env.faults { return Refused(StoreFailure); }
      return Awaiting(r.requestId, pending.bodyKey, pending.expiresAt);
    }

    method Redeem(r: Request, env: Env) returns (reply: Reply)
      requires Valid()
      modifies this, network
      ensures Valid()
      ensures (State(), reply) == Enrollment.Redeem(cfg, old(State()), r, env)
    {
      if !Authentic(cfg, r) { return Refused(AuthenticError(cfg, r)); }
      if ReadFails !in env.faults && r.requestId in pendings {
        var existing := pendings[r.requestId];
        if existing.bodyKey != r.bodyKey || existing.mode != Invited || existing.invitationId != r.invitationId {
          return Refused(Replayed);
        }
        if ReadInvitationFails in env.faults || !SecretMatches(State(), r) { return Refused(Unauthorized); }
        if existing.status == Enrolled { return GetReceipt(r.requestId, env); }
        if !Redeemable(State(), r, env.now) { return Refused(Unauthorized); }
        reply := CompleteLocked(r.requestId, "invitation", invitations[r.invitationId].permissions, env);
        return;
      }
      if ReadInvitationFails in env.faults || !Redeemable(State(), r, env.now) { return Refused(Unauthorized); }
      if !WellFormed(r) { return Refused(InvalidRequest); }
      var inserted := Insert(r.requestId, NewPending(cfg, r, Invited, None, r.invitationId, env.now), env);
      if !inserted {
        if ReadReceiptFails !in env.faults && r.requestId in receipts { return Receipted(receipts[r.requestId]); }
        return Refused(Replayed);
      }
      reply := CompleteLocked(r.requestId, "invitation", invitations[r.invitationId].permissions, env);
    }

    /** The row with the given code verifier, found by its unique index. */
    method FindByVerifier(verifier: string) returns (id: Option<string>)
      requires VerifiersUnique(pendings)
      ensures id == ByVerifier(State(), verifier)
    {
      if exists k :: k in pendings && pendings[k].verifier == Some(verifier) {
        var k :| k in pendings && pendings[k].verifier == Some(verifier);
        return Some(k);
      }
      return None;
    }

    method Approve(verifier: string, ownerId: string, permissions: seq<string>, env: Env) returns (reply: Reply)
      requires Valid() && VerifiersUnique(pendings)
      modifies this, network
      ensures Valid()
      ensures (State(), reply) == Enrollment.Approve(cfg, old(State()), verifier, ownerId, permissions, env)
    {
      if ownerId == "" { return Refused(Unauthorized); }
      var id := FindByVerifier(verifier);
      if ReadFails in env.faults || id.None? { return Refused(Unauthorized); }
      if pendings[id.value].attempts >= cfg.maxAttempts { return Refused(RateLimited); }
      if !env.authorized { return Refused(Unauthorized); }
      reply := CompleteLocked(id.value, ownerId, permissions, env);
    }

    method Deny(verifier: string, ownerId: string, env: Env) returns (reply: Reply)
      requires Valid() && VerifiersUnique(pendings)
      modifies this
      ensures Valid()
      ensures (State(), reply) == Enrollment.Deny(cfg, old(State()), verifier, ownerId, env)
    {
      if ownerId == "" { return Refused(Unauthorized); }
      var id := FindByVerifier(verifier);
      if ReadFails in env.faults || id.None? { return Refused(Unauthorized); }
      if !env.authorized { return Refused(Unauthorized); }
      var p := pendings[id.value];
      if env.now > p.expiresAt { return Refused(IsExpired); }
      if CommitFails in env.faults { return Refused(StoreFailure); }
      if p.status != Waiting { return Refused(Replayed); }
      pendings := pendings[id.value := p.(status := Denied, owner := ownerId)];
      return Done;
    }

    method Revoke(bodyId: string, ownerId: string, env: Env) returns (reply: Reply)
      requires Valid()
      modifies this, network
      ensures Valid()
      ensures (State(), reply) == Enrollment.Revoke(old(State()), bodyId, ownerId, env)
    {
      if bodyId == "" || ownerId == "" || !env.authorized { return Refused(Unauthorized); }
      if ReadFails in env.faults { return Refused(StoreFailure); }
      if bodyId !in bodies { return Refused(UnknownBody); }
      var body := bodies[bodyId];
      var peer := body.membershipRef;
      if peer !in network.memberships || network.memberships[peer].bodyId != bodyId { return Refused(UnknownBody); }
      var membership := network.memberships[peer];
      if body.revokedAt.None? {
        if RevokeFails in env.faults { return Refused(StoreFailure); }
        bodies := bodies[bodyId := body.(revokedAt := Some(env.now))];
        rows := rows[peer := membership.(status := MemberRevoked)];
      }
      if membership.status != MemberRevoked {
        var revoked := network.RevokeMembership(peer);
      }
      assert network.memberships == old(network.memberships)[peer := membership.(status := MemberRevoked)];
      if RefreshFails in env.faults { return Refused(StoreFailure); }
      return Done;
    }
  }
}
