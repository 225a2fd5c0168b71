/** Core/Enrollment with the transactions of Core/Persistence/enrollment.go: what each
    operation does to the durable tables and to the in-memory network, as one atomic
    step each, and what holds over every run of them. Signatures, hashes and the clock
    are inputs. EnrollmentService performs the operations in place. */
module Enrollment {
  import opened Common

  datatype Mode = Invited | BodyRequest
  datatype Status = Waiting | Denied | Enrolled
  datatype MembershipStatus = MemberPending | MemberActive | MemberRevoked

  datatype Pending = Pending(
    mode: Mode,
    bodyKey: string,
    wgKey: string,
    nonce: string,
    verifier: Option<string>,
    invitationId: string,
    status: Status,
    attempts: nat,
    owner: string,
    permissions: seq<string>,
    createdAt: int,
    expiresAt: int)

  datatype Receipt = Receipt(
    requestId: string,
    bodyId: string,
    bodyKey: string,
    permissions: seq<string>,
    membershipRef: string,
    issuedAt: int)

  datatype Body = Body(
    publicKey: string,
    owner: string,
    permissions: seq<string>,
    membershipRef: string,
    createdAt: int,
    revokedAt: Option<int>)

  datatype Membership = Membership(
    bodyId: string,
    peer: string,
    wgKey: Option<string>,
    overlay: string,
    status: MembershipStatus)

  datatype Invitation = Invitation(secretHash: string, expiresAt: int, consumed: bool, permissions: seq<string>)

  /** The durable tables (rows is the stored form of the memberships), the memberships
      held in memory, and the latest time any operation has read. */
  datatype Db = Db(
    clock: int,
    pendings: map<string, Pending>,
    receipts: map<string, Receipt>,
    bodies: map<string, Body>,
    rows: map<string, Membership>,
    invitations: map<string, Invitation>,
    memberships: map<string, Membership>)

  /** Fixed for the life of the service. Overlay addresses are a function of the peer. */
  datatype Config = Config(
    coreId: string,
    lifetime: int,
    maxPending: nat,
    maxAttempts: nat,
    addressOf: string -> string)

  const ENROLLMENT_VERSION := 1
  const SECOND := 1_000_000_000

  datatype Request = Request(
    version: int,
    coreId: string,
    proofOk: bool,
    requestId: string,
    bodyKey: string,
    wgKey: string,
    nonce: string,
    metadataBytes: nat,
    invitationId: string,
    secretHash: string)

  /** Calls that may fail for reasons outside the model. */
  datatype Fault =
    | CountFails | CodeFails | NonceFails | ReadFails | ReadInvitationFails | CreateFails | SignFails
    | CommitFails | ReadReceiptFails | RevokeFails | RefreshFails

  /** What one operation meets: the time, the identifiers it generates, the owner
      authorizer's decision and the calls that fail. */
  datatype Env = Env(now: int, bodyId: string, peer: string, authorized: bool, faults: set<Fault>)

  datatype Error =
    | UnsupportedVersion | CoreIdentity | InvalidProof | Unauthorized | Replayed | RateLimited
    | IsDenied | IsExpired | UnknownBody | InvalidRequest | NetworkRefused | StoreFailure

  datatype Reply =
    | Receipted(receipt: Receipt)
    | Awaiting(requestId: string, bodyKey: string, expiresAt: int)
    | Missing
    | Done
    | Refused(error: Error)

  // ----- pieces

  function Truncate(t: int): int { t - t % SECOND }

  predicate Authentic(cfg: Config, r: Request) {
    r.version == ENROLLMENT_VERSION && r.coreId == cfg.coreId && r.proofOk
  }

  function AuthenticError(cfg: Config, r: Request): Error {
    if r.version != ENROLLMENT_VERSION then UnsupportedVersion
    else if r.coreId != cfg.coreId then CoreIdentity
    else InvalidProof
  }

  function NewPending(cfg: Config, r: Request, mode: Mode, verifier: Option<string>, invitationId: string, now: int): Pending {
    Pending(mode, r.bodyKey, r.wgKey, r.nonce, verifier, invitationId, Waiting, 0, "", [], Truncate(now),
            Truncate(now) + cfg.lifetime)
  }

  predicate WellFormed(r: Request) {
    0 < |r.requestId| <= 128 && r.metadataBytes <= 1024
  }

  /** The insert meets the primary key and the two uniqueness constraints. */
  predicate CanInsert(db: Db, id: string, p: Pending) {
    && id !in db.pendings
    && (p.verifier.Some? ==> forall k :: k in db.pendings ==> db.pendings[k].verifier != p.verifier)
    && (forall k :: k in db.pendings ==> db.pendings[k].bodyKey != p.bodyKey || db.pendings[k].nonce != p.nonce)
  }

  /** The rate limit compares formatted times as text: a row whose whole-second expiry
      lies in the current second still counts until the next one begins. */
  predicate Counts(p: Pending, now: int) {
    p.status == Waiting && (p.expiresAt > now || (p.expiresAt == Truncate(now) && p.expiresAt < now))
  }

  function WaitingCount(db: Db, now: int): nat {
    |set k | k in db.pendings && Counts(db.pendings[k], now)|
  }

  predicate SecretMatches(db: Db, r: Request) {
    r.invitationId in db.invitations && db.invitations[r.invitationId].secretHash == r.secretHash
  }

  predicate Redeemable(db: Db, r: Request, now: int) {
    SecretMatches(db, r) && !db.invitations[r.invitationId].consumed && now <= db.invitations[r.invitationId].expiresAt
  }

  function ReadReceipt(db: Db, id: string, env: Env): Reply {
    if ReadReceiptFails in env.faults then Refused(StoreFailure)
    else if id in db.receipts then Receipted(db.receipts[id])
    else Missing
  }

  // ----- completion

  predicate NetworkAdmits(cfg: Config, memberships: map<string, Membership>, env: Env) {
    && env.bodyId != "" && env.peer != ""
    && (forall k :: k in memberships ==> memberships[k].bodyId != env.bodyId)
    && (forall k :: k in memberships ==> memberships[k].overlay != cfg.addressOf(env.peer))
  }

  /** Every statement of the completion transaction succeeds. */
  predicate CanCommit(db: Db, id: string, env: Env)
    requires id in db.pendings
  {
    var p := db.pendings[id];
    && CommitFails !in env.faults
    && (p.invitationId != "" ==> p.invitationId in db.invitations && !db.invitations[p.invitationId].consumed)
    && RowsFree(db, id, env)
    && p.status == Waiting
  }

  /** None of the inserts of the transaction meets an existing row. */
  predicate RowsFree(db: Db, id: string, env: Env)
    requires id in db.pendings
  {
    && env.bodyId !in db.bodies
    && (forall b :: b in db.bodies ==> db.bodies[b].publicKey != db.pendings[id].bodyKey && db.bodies[b].membershipRef != env.peer)
    && env.peer !in db.rows
    && id !in db.receipts
  }

  function NewMember(cfg: Config, p: Pending, env: Env): Membership {
    Membership(env.bodyId, env.peer, Some(p.wgKey), cfg.addressOf(env.peer), MemberActive)
  }

  function NewReceipt(id: string, p: Pending, permissions: seq<string>, env: Env): Receipt {
    Receipt(id, env.bodyId, p.bodyKey, permissions, env.peer, Truncate(env.now))
  }

  function Commit(cfg: Config, db: Db, id: string, owner: string, permissions: seq<string>, env: Env): Db
    requires id in db.pendings && CanCommit(db, id, env)
  {
    var p := db.pendings[id];
    var member := NewMember(cfg, p, env);
    db.(pendings := db.pendings[id := p.(status := Enrolled, owner := owner, permissions := permissions)],
        receipts := db.receipts[id := NewReceipt(id, p, permissions, env)],
        bodies := db.bodies[env.bodyId := Body(p.bodyKey, owner, permissions, env.peer, Truncate(env.now), None)],
        rows := db.rows[env.peer := member],
        memberships := db.memberships[env.peer := member],
        invitations := if p.invitationId == "" then db.invitations
                       else db.invitations[p.invitationId := db.invitations[p.invitationId].(consumed := true)])
  }

  /** completeLocked as one step: it either commits everything or changes nothing. */
  function Complete(cfg: Config, db: Db, id: string, owner: string, permissions: seq<string>, env: Env): (Db, Reply)
    requires id in db.pendings
  {
    var p := db.pendings[id];
    if p.status == Enrolled then (db, ReadReceipt(db, id, env))
    else if p.status == Denied then (db, Refused(IsDenied))
    else if env.now >= p.expiresAt then (db, Refused(IsExpired))
    else if !NetworkAdmits(cfg, db.memberships, env) then (db, Refused(NetworkRefused))
    else if SignFails in env.faults then (db, Refused(StoreFailure))
    else if CanCommit(db, id, env) then
      (Commit(cfg, db, id, owner, permissions, env), Receipted(NewReceipt(id, p, permissions, env)))
    else if ReadReceiptFails !in env.faults && id in db.receipts then (db, Receipted(db.receipts[id]))
    else (db, Refused(CommitError(db, id, env)))
  }

  /** A spent invitation, or a row that no longer waits, is reported as a replay; a failing
      statement as it comes. */
  function CommitError(db: Db, id: string, env: Env): Error
    requires id in db.pendings
  {
    var inv := db.pendings[id].invitationId;
    if CommitFails in env.faults then StoreFailure
    else if inv != "" && (inv !in db.invitations || db.invitations[inv].consumed) then Replayed
    else if !RowsFree(db, id, env) then StoreFailure
    else Replayed
  }

  // ----- operations

  function Begin(cfg: Config, db: Db, r: Request, verifier: string, env: Env): (Db, Reply) {
    if !Authentic(cfg, r) then (db, Refused(AuthenticError(cfg, r)))
    else if CountFails in env.faults then (db, Refused(StoreFailure))
    else if WaitingCount(db, env.now) >= cfg.maxPending then (db, Refused(RateLimited))
    else if CodeFails in env.faults then (db, Refused(StoreFailure))
    else if !WellFormed(r) then (db, Refused(InvalidRequest))
    else
      var p := NewPending(cfg, r, BodyRequest, Some(verifier), "", env.now);
      if CreateFails in env.faults || !CanInsert(db, r.requestId, p) then (db, Refused(Replayed))
      else
        (db.(pendings := db.pendings[r.requestId := p]),
         if NonceFails in env.faults || SignFails in env.faults then Refused(StoreFailure)
         else Awaiting(r.requestId, r.bodyKey, p.expiresAt))
  }

  function Redeem(cfg: Config, db: Db, r: Request, env: Env): (Db, Reply) {
    if !Authentic(cfg, r) then (db, Refused(AuthenticError(cfg, r)))
    else if ReadFails !in env.faults && r.requestId in db.pendings then RedeemExisting(cfg, db, r, env)
    else if ReadInvitationFails in env.faults || !Redeemable(db, r, env.now) then (db, Refused(Unauthorized))
    else if !WellFormed(r) then (db, Refused(InvalidRequest))
    else
      var p := NewPending(cfg, r, Invited, None, r.invitationId, env.now);
      if CreateFails in env.faults || !CanInsert(db, r.requestId, p) then
        (db, if ReadReceiptFails !in env.faults && r.requestId in db.receipts then Receipted(db.receipts[r.requestId])
             else Refused(Replayed))
      else
        Complete(cfg, db.(pendings := db.pendings[r.requestId := p]), r.requestId, "invitation",
                 db.invitations[r.invitationId].permissions, env)
  }

  function RedeemExisting(cfg: Config, db: Db, r: Request, env: Env): (Db, Reply)
    requires r.requestId in db.pendings
  {
    var p := db.pendings[r.requestId];
    if p.bodyKey != r.bodyKey || p.mode != Invited || p.invitationId != r.invitationId then (db, Refused(Replayed))
    else if ReadInvitationFails in env.faults || !SecretMatches(db, r) then (db, Refused(Unauthorized))
    else if p.status == Enrolled then (db, ReadReceipt(db, r.requestId, env))
    else if !Redeemable(db, r, env.now) then (db, Refused(Unauthorized))
    else Complete(cfg, db, r.requestId, "invitation", db.invitations[r.invitationId].permissions, env)
  }

  /** The request a code identifies: verifiers are unique. */
  ghost function ByVerifier(db: Db, verifier: string): Option<string> {
    if exists id :: id in db.pendings && db.pendings[id].verifier == Some(verifier) then
      var id :| id in db.pendings && db.pendings[id].verifier == Some(verifier);
      Some(id)
    else None
  }

  ghost function Approve(cfg: Config, db: Db, verifier: string, ownerId: string, permissions: seq<string>, env: Env): (Db, Reply) {
    if ownerId == "" then (db, Refused(Unauthorized))
    else if ReadFails in env.faults || ByVerifier(db, verifier).None? then (db, Refused(Unauthorized))
    else
      var id := ByVerifier(db, verifier).value;
      if db.pendings[id].attempts >= cfg.maxAttempts then (db, Refused(RateLimited))
      else if !env.authorized then (db, Refused(Unauthorized))
      else Complete(cfg, db, id, ownerId, permissions, env)
  }

  ghost function Deny(cfg: Config, db: Db, verifier: string, ownerId: string, env: Env): (Db, Reply) {
    if ownerId == "" then (db, Refused(Unauthorized))
    else if ReadFails in env.faults || ByVerifier(db, verifier).None? then (db, Refused(Unauthorized))
    else if !env.authorized then (db, Refused(Unauthorized))
    else
      var id := ByVerifier(db, verifier).value;
      var p := db.pendings[id];
      if env.now > p.expiresAt then (db, Refused(IsExpired))
      else if CommitFails in env.faults then (db, Refused(StoreFailure))
      else if p.status != Waiting then (db, Refused(Replayed))
      else (db.(pendings := db.pendings[id := p.(status := Denied, owner := ownerId)]), Done)
  }

  function Revoke(db: Db, bodyId: string, ownerId: string, env: Env): (Db, Reply) {
    if bodyId == "" || ownerId == "" || !env.authorized then (db, Refused(Unauthorized))
    else if ReadFails in env.faults then (db, Refused(StoreFailure))
    else if bodyId !in db.bodies then (db, Refused(UnknownBody))
    else
      var body := db.bodies[bodyId];
      var peer := body.membershipRef;
      if peer !in db.memberships || db.memberships[peer].bodyId != bodyId then (db, Refused(UnknownBody))
      else if body.revokedAt.None? && RevokeFails in env.faults then (db, Refused(StoreFailure))
      else
        var gone := db.memberships[peer].(status := MemberRevoked);
        var db' := if body.revokedAt.Some? then db
                   else db.(bodies := db.bodies[bodyId := body.(revokedAt := Some(env.now))], rows := db.rows[peer := gone]);
        (db'.(memberships := db'.memberships[peer := gone]), if RefreshFails in env.faults then Refused(StoreFailure) else Done)
  }

  function Invite(db: Db, id: string, invitation: Invitation): (Db, Reply) {
    if id in db.invitations || id == "" then (db, Refused(StoreFailure))
    else (db.(invitations := db.invitations[id := invitation]), Done)
  }

  function FailedProof(db: Db, id: string): (Db, Reply) {
    if id !in db.pendings then (db, Refused(InvalidProof))
    else
      var p := db.pendings[id];
      (db.(pendings := db.pendings[id := p.(attempts := p.attempts + 1)]), Refused(InvalidProof))
  }

  // ----- runs

  datatype Call =
    | CallBegin(request: Request, verifier: string)
    | CallRedeem(request: Request)
    | CallApprove(verifier: string, ownerId: string, permissions: seq<string>)
    | CallDeny(verifier: string, ownerId: string)
    | CallRevoke(bodyId: string, ownerId: string)
    | CallInvite(id: string, invitation: Invitation)  // the invitation service issues one
    | CallFailedProof(requestId: string)              // Result counts a failed proof

  datatype Event = Event(call: Call, env: Env)

  ghost function Perform(cfg: Config, db: Db, ev: Event): (Db, Reply) {
    match ev.call
    case CallBegin(r, v) => Begin(cfg, db, r, v, ev.env)
    case CallRedeem(r) => Redeem(cfg, db, r, ev.env)
    case CallApprove(v, owner, perms) => Approve(cfg, db, v, owner, perms, ev.env)
    case CallDeny(v, owner) => Deny(cfg, db, v, owner, ev.env)
    case CallRevoke(b, owner) => Revoke(db, b, owner, ev.env)
    case CallInvite(id, inv) => Invite(db, id, inv)
    case CallFailedProof(id) => FailedProof(db, id)
  }

  /** One call, after which the clock shows the time it read. */
  ghost function Next(cfg: Config, db: Db, ev: Event): Db {
    Perform(cfg, db, ev).0.(clock := ev.env.now)
  }

  /** A run whose clock does not go backwards. */
  ghost predicate IsRun(cfg: Config, db: Db, evs: seq<Event>)
    decreases |evs|
  {
    evs == [] || (db.clock <= evs[0].env.now && IsRun(cfg, Next(cfg, db, evs[0]), evs[1..]))
  }

  ghost function Run(cfg: Config, db: Db, evs: seq<Event>): Db
    decreases |evs|
  {
    if evs == [] then db else Run(cfg, Next(cfg, db, evs[0]), evs[1..])
  }

  // ----- the invariant

  type Pendings = map<string, Pending>
  type Receipts = map<string, Receipt>

  /** A request has a receipt exactly when its pending row is enrolled. */
  ghost predicate ReceiptsMatch(pendings: Pendings, receipts: Receipts) {
    && (forall id :: id in receipts ==> id in pendings && pendings[id].status == Enrolled)
    && (forall id :: id in pendings && pendings[id].status == Enrolled ==> id in receipts)
  }

  /** Each receipt names a credential of its own, for the key that was requested. */
  ghost predicate ReceiptsBacked(pendings: Pendings, receipts: Receipts, bodies: map<string, Body>) {
    && (forall id :: id in receipts ==> id in pendings && Backed(id, receipts[id], pendings[id], bodies))
    && (forall i, j :: i in receipts && j in receipts && i != j ==> receipts[i].bodyId != receipts[j].bodyId)
  }

  predicate Backed(id: string, r: Receipt, p: Pending, bodies: map<string, Body>) {
    && r.requestId == id && r.bodyId in bodies && bodies[r.bodyId].membershipRef == r.membershipRef
    && bodies[r.bodyId].publicKey == r.bodyKey == p.bodyKey
  }

  /** A receipt's invitation is spent, and by that receipt alone. */
  ghost predicate SpentOnce(pendings: Pendings, receipts: Receipts, invitations: map<string, Invitation>) {
    && "" !in invitations
    && (forall id :: id in receipts ==> id in pendings && Spent(pendings[id].invitationId, invitations))
    && (forall i, j :: i in receipts && j in receipts && i != j && pendings[i].invitationId != "" ==>
          pendings[i].invitationId != pendings[j].invitationId)
  }

  predicate Spent(inv: string, invitations: map<string, Invitation>) {
    inv != "" ==> inv in invitations && invitations[inv].consumed
  }

  /** Each credential has its membership row, active until the credential is revoked. */
  ghost predicate BodiesHaveRows(bodies: map<string, Body>, rows: map<string, Membership>) {
    forall b :: b in bodies ==> HasRow(b, bodies[b], rows)
  }

  predicate HasRow(b: string, body: Body, rows: map<string, Membership>) {
    var ref := body.membershipRef;
    && ref in rows && rows[ref].bodyId == b
    && rows[ref].status == (if body.revokedAt.Some? then MemberRevoked else MemberActive)
  }

  ghost predicate RowsAddressed(cfg: Config, rows: map<string, Membership>) {
    forall p :: p in rows ==> rows[p].peer == p && rows[p].overlay == cfg.addressOf(p)
  }

  ghost predicate VerifiersUnique(pendings: Pendings) {
    forall i, j :: i in pendings && j in pendings && i != j && pendings[i].verifier.Some? ==>
      pendings[i].verifier != pendings[j].verifier
  }

  ghost predicate Inv(cfg: Config, db: Db) {
    && ReceiptsMatch(db.pendings, db.receipts)
    && ReceiptsBacked(db.pendings, db.receipts, db.bodies)
    && SpentOnce(db.pendings, db.receipts, db.invitations)
    && BodiesHaveRows(db.bodies, db.rows)
    && RowsAddressed(cfg, db.rows)
    && VerifiersUnique(db.pendings)
    && db.memberships == db.rows
  }

  // ----- how the state may change over any number of calls

  ghost predicate PendingsEvolve(pendings: Pendings, pendings': Pendings, clock: int) {
    forall id :: id in pendings ==> id in pendings' && RowEvolves(pendings[id], pendings'[id], clock)
  }

  /** A row keeps its key, invitation and expiry; enrolled and denied are final. */
  predicate KeepsRow(p: Pending, p': Pending) {
    && p'.bodyKey == p.bodyKey && p'.invitationId == p.invitationId && p'.expiresAt == p.expiresAt
    && p'.verifier == p.verifier
    && (p.status != Waiting ==> p'.status == p.status)
  }

  /** In addition, a request that had expired by `clock` does not become enrolled. */
  predicate RowEvolves(p: Pending, p': Pending, clock: int) {
    KeepsRow(p, p') && (p.status == Waiting && clock >= p.expiresAt ==> p'.status != Enrolled)
  }

  ghost predicate ReceiptsEvolve(receipts: Receipts, receipts': Receipts) {
    forall id :: id in receipts ==> id in receipts' && receipts'[id] == receipts[id]
  }

  ghost predicate BodiesEvolve(bodies: map<string, Body>, bodies': map<string, Body>) {
    forall b :: b in bodies ==> b in bodies' && BodyEvolves(bodies[b], bodies'[b])
  }

  predicate BodyEvolves(b: Body, b': Body) {
    b'.publicKey == b.publicKey && b'.membershipRef == b.membershipRef && (b.revokedAt.Some? ==> b' == b)
  }

  ghost predicate InvitationsEvolve(invitations: map<string, Invitation>, invitations': map<string, Invitation>) {
    forall k :: k in invitations ==> k in invitations' && (invitations[k].consumed ==> invitations'[k].consumed)
  }

  ghost predicate Evolves(db: Db, db': Db) {
    && db.clock <= db'.clock
    && PendingsEvolve(db.pendings, db'.pendings, db.clock)
    && ReceiptsEvolve(db.receipts, db'.receipts)
    && BodiesEvolve(db.bodies, db'.bodies)
    && InvitationsEvolve(db.invitations, db'.invitations)
  }

  lemma EvolvesTransitive(a: Db, b: Db, c: Db)
    requires Evolves(a, b) && Evolves(b, c)
    ensures Evolves(a, c)
  {
    forall id | id in a.pendings
      ensures id in c.pendings && RowEvolves(a.pendings[id], c.pendings[id], a.clock)
    {
      assert RowEvolves(a.pendings[id], b.pendings[id], a.clock);
      assert RowEvolves(b.pendings[id], c.pendings[id], b.clock);
    }
  }

  // ----- each kind of change keeps the invariant

  ghost predicate Keeps(cfg: Config, db: Db, db': Db) {
    Inv(cfg, db') && Evolves(db, db')
  }

  /** The pending table changes without anyone being enrolled. */
  ghost predicate QuietPendings(pendings: Pendings, pendings': Pendings) {
    && (forall id :: id in pendings ==> id in pendings' && QuietRow(pendings[id], pendings'[id]))
    && (forall id :: id in pendings' && id !in pendings ==> pendings'[id].status != Enrolled)
  }

  predicate QuietRow(p: Pending, p': Pending) {
    KeepsRow(p, p') && (p'.status == Enrolled ==> p.status == Enrolled)
  }

  lemma QuietPendingsKeep(cfg: Config, db: Db, pendings': Pendings)
    requires Inv(cfg, db) && QuietPendings(db.pendings, pendings') && VerifiersUnique(pendings')
    ensures Keeps(cfg, db, db.(pendings := pendings'))
  {
    forall id | id in db.receipts
      ensures id in pendings' && Backed(id, db.receipts[id], pendings'[id], db.bodies) && pendings'[id].status == Enrolled
              && pendings'[id].invitationId == db.pendings[id].invitationId && Spent(pendings'[id].invitationId, db.invitations)
    {
      assert QuietRow(db.pendings[id], pendings'[id]);
      assert Backed(id, db.receipts[id], db.pendings[id], db.bodies);
    }
    forall id | id in db.pendings
      ensures id in pendings' && RowEvolves(db.pendings[id], pendings'[id], db.clock)
    {
      assert QuietRow(db.pendings[id], pendings'[id]);
    }
  }

  // The completion transaction, table by table.

  lemma EnrollMatches(pendings: Pendings, receipts: Receipts, id: string, p': Pending, r: Receipt)
    requires ReceiptsMatch(pendings, receipts) && p'.status == Enrolled
    ensures ReceiptsMatch(pendings[id := p'], receipts[id := r])
  {
  }

  lemma EnrollBacked(pendings: Pendings, receipts: Receipts, bodies: map<string, Body>,
                     id: string, p': Pending, r: Receipt, body: Body)
    requires ReceiptsBacked(pendings, receipts, bodies) && id !in receipts && r.bodyId !in bodies
    requires Backed(id, r, p', bodies[r.bodyId := body])
    ensures ReceiptsBacked(pendings[id := p'], receipts[id := r], bodies[r.bodyId := body])
  {
    forall k | k in receipts
      ensures Backed(k, receipts[k], pendings[k], bodies[r.bodyId := body]) && receipts[k].bodyId != r.bodyId
    {
      assert Backed(k, receipts[k], pendings[k], bodies);
    }
  }

  lemma EnrollSpends(pendings: Pendings, receipts: Receipts, invitations: map<string, Invitation>,
                     invitations': map<string, Invitation>, id: string, p': Pending, r: Receipt)
    requires SpentOnce(pendings, receipts, invitations) && id !in receipts && "" !in invitations'
    requires InvitationsEvolve(invitations, invitations') && Spent(p'.invitationId, invitations')
    requires p'.invitationId in invitations ==> !invitations[p'.invitationId].consumed
    ensures SpentOnce(pendings[id := p'], receipts[id := r], invitations')
  {
    forall k | k in receipts
      ensures Spent(pendings[k].invitationId, invitations')
      ensures p'.invitationId != "" ==> pendings[k].invitationId != p'.invitationId
    {
      assert Spent(pendings[k].invitationId, invitations);
    }
  }

  lemma EnrollHasRow(bodies: map<string, Body>, rows: map<string, Membership>, b: string, body: Body, m: Membership)
    requires BodiesHaveRows(bodies, rows) && body.membershipRef !in rows
    requires m.bodyId == b && m.status == MemberActive && body.revokedAt.None?
    ensures BodiesHaveRows(bodies[b := body], rows[body.membershipRef := m])
  {
    forall k | k in bodies && k != b
      ensures HasRow(k, bodies[k], rows[body.membershipRef := m])
    {
      assert HasRow(k, bodies[k], rows);
    }
  }

  lemma EnrollUnique(pendings: Pendings, id: string, p': Pending)
    requires VerifiersUnique(pendings) && id in pendings && p'.verifier == pendings[id].verifier
    ensures VerifiersUnique(pendings[id := p'])
  {
  }

  lemma EnrollAddressed(cfg: Config, rows: map<string, Membership>, m: Membership)
    requires RowsAddressed(cfg, rows) && m.overlay == cfg.addressOf(m.peer)
    ensures RowsAddressed(cfg, rows[m.peer := m])
  {
  }

  lemma CommitInv(cfg: Config, db: Db, id: string, owner: string, permissions: seq<string>, env: Env)
    requires Inv(cfg, db) && id in db.pendings && CanCommit(db, id, env)
    ensures Inv(cfg, Commit(cfg, db, id, owner, permissions, env))
  {
    var db' := Commit(cfg, db, id, owner, permissions, env);
    var p', r, body := db'.pendings[id], db'.receipts[id], db'.bodies[env.bodyId];
    EnrollMatches(db.pendings, db.receipts, id, p', r);
    EnrollBacked(db.pendings, db.receipts, db.bodies, id, p', r, body);
    EnrollSpends(db.pendings, db.receipts, db.invitations, db'.invitations, id, p', r);
    EnrollHasRow(db.bodies, db.rows, env.bodyId, body, db'.rows[env.peer]);
    EnrollUnique(db.pendings, id, p');
    EnrollAddressed(cfg, db.rows, db'.rows[env.peer]);
  }

  lemma CommitEvolves(cfg: Config, db: Db, id: string, owner: string, permissions: seq<string>, env: Env)
    requires id in db.pendings && CanCommit(db, id, env) && db.clock < db.pendings[id].expiresAt
    ensures Evolves(db, Commit(cfg, db, id, owner, permissions, env))
  {
  }

  // Revocation, table by table.

  lemma RevokeHasRow(bodies: map<string, Body>, rows: map<string, Membership>, b: string, at: int)
    requires BodiesHaveRows(bodies, rows) && b in bodies && bodies[b].revokedAt.None?
    ensures var ref := bodies[b].membershipRef;
            && ref in rows
            && BodiesHaveRows(bodies[b := bodies[b].(revokedAt := Some(at))], rows[ref := rows[ref].(status := MemberRevoked)])
  {
    assert HasRow(b, bodies[b], rows);
    var ref := bodies[b].membershipRef;
    forall k | k in bodies && k != b
      ensures HasRow(k, bodies[k], rows[ref := rows[ref].(status := MemberRevoked)])
    {
      assert HasRow(k, bodies[k], rows);
    }
  }

  lemma RevokeBacked(pendings: Pendings, receipts: Receipts, bodies: map<string, Body>, b: string, at: int)
    requires ReceiptsBacked(pendings, receipts, bodies) && b in bodies
    ensures ReceiptsBacked(pendings, receipts, bodies[b := bodies[b].(revokedAt := Some(at))])
  {
    forall k | k in receipts
      ensures Backed(k, receipts[k], pendings[k], bodies[b := bodies[b].(revokedAt := Some(at))])
    {
      assert Backed(k, receipts[k], pendings[k], bodies);
    }
  }

  lemma RevokeKeeps(cfg: Config, db: Db, bodyId: string, ownerId: string, env: Env)
    requires Inv(cfg, db)
    ensures Keeps(cfg, db, Revoke(db, bodyId, ownerId, env).0)
  {
    var db' := Revoke(db, bodyId, ownerId, env).0;
    if db' != db {
      assert HasRow(bodyId, db.bodies[bodyId], db.rows);
      if db.bodies[bodyId].revokedAt.None? {
        RevokeHasRow(db.bodies, db.rows, bodyId, env.now);
        RevokeBacked(db.pendings, db.receipts, db.bodies, bodyId, env.now);
      }
    }
  }

  // ----- each operation

  lemma InsertKeeps(cfg: Config, db: Db, id: string, p: Pending)
    requires Inv(cfg, db) && CanInsert(db, id, p) && p.status == Waiting
    ensures Keeps(cfg, db, db.(pendings := db.pendings[id := p]))
  {
    InsertUnique(db, id, p);
    QuietPendingsKeep(cfg, db, db.pendings[id := p]);
  }

  lemma InsertUnique(db: Db, id: string, p: Pending)
    requires VerifiersUnique(db.pendings) && CanInsert(db, id, p)
    ensures VerifiersUnique(db.pendings[id := p])
  {
  }

  lemma UpdateKeeps(cfg: Config, db: Db, id: string, p: Pending)
    requires Inv(cfg, db) && id in db.pendings && QuietRow(db.pendings[id], p)
    ensures Keeps(cfg, db, db.(pendings := db.pendings[id := p]))
  {
    EnrollUnique(db.pendings, id, p);
    QuietPendingsKeep(cfg, db, db.pendings[id := p]);
  }

  /** A receipt in a reply is the stored one, under the request it names. */
  ghost predicate Honest(db': Db, id: string, reply: Reply) {
    && reply != Missing
    && (reply.Receipted? ==> reply.receipt.requestId == id && id in db'.receipts && db'.receipts[id] == reply.receipt)
  }

  lemma StoredReceiptIsHonest(cfg: Config, db: Db, id: string, env: Env)
    requires Inv(cfg, db) && id in db.receipts
    ensures Honest(db, id, ReadReceipt(db, id, env)) && Honest(db, id, Receipted(db.receipts[id]))
  {
    assert Backed(id, db.receipts[id], db.pendings[id], db.bodies);
  }

  lemma StutterKeeps(cfg: Config, db: Db)
    requires Inv(cfg, db)
    ensures Keeps(cfg, db, db)
  {
  }

  /** Completion commits everything or changes nothing. */
  lemma CompleteShape(cfg: Config, db: Db, id: string, owner: string, permissions: seq<string>, env: Env)
    requires id in db.pendings
    ensures var (db', reply) := Complete(cfg, db, id, owner, permissions, env);
            if CanCommit(db, id, env) && env.now < db.pendings[id].expiresAt
               && NetworkAdmits(cfg, db.memberships, env) && SignFails !in env.faults
            then db' == Commit(cfg, db, id, owner, permissions, env)
                 && reply == Receipted(NewReceipt(id, db.pendings[id], permissions, env))
            else db' == db && (reply.Receipted? ==> id in db.receipts && reply.receipt == db.receipts[id])
                 && (reply == Missing ==> db.pendings[id].status == Enrolled && id !in db.receipts)
  {
  }

  lemma CompleteKeeps(cfg: Config, db: Db, id: string, owner: string, permissions: seq<string>, env: Env)
    requires Inv(cfg, db) && id in db.pendings && db.clock <= env.now
    ensures Keeps(cfg, db, Complete(cfg, db, id, owner, permissions, env).0)
  {
    CompleteShape(cfg, db, id, owner, permissions, env);
    if Complete(cfg, db, id, owner, permissions, env).0 == db {
      StutterKeeps(cfg, db);
    } else {
      CommitInv(cfg, db, id, owner, permissions, env);
      CommitEvolves(cfg, db, id, owner, permissions, env);
    }
  }

  lemma CompleteHonest(cfg: Config, db: Db, id: string, owner: string, permissions: seq<string>, env: Env)
    requires ReceiptsMatch(db.pendings, db.receipts) && ReceiptsBacked(db.pendings, db.receipts, db.bodies)
    requires id in db.pendings
    ensures Honest(Complete(cfg, db, id, owner, permissions, env).0, id, Complete(cfg, db, id, owner, permissions, env).1)
  {
    CompleteShape(cfg, db, id, owner, permissions, env);
    if id in db.receipts {
      assert Backed(id, db.receipts[id], db.pendings[id], db.bodies);
    }
  }

  /** Redeeming completes the request, inserts and completes it, or changes nothing. */
  lemma RedeemShape(cfg: Config, db: Db, r: Request, env: Env)
    ensures var result := Redeem(cfg, db, r, env);
            var p := NewPending(cfg, r, Invited, None, r.invitationId, env.now);
            || (result.0 == db && (result.1.Receipted? ==> r.requestId in db.receipts && result.1.receipt == db.receipts[r.requestId])
                && (result.1 == Missing ==> r.requestId in db.pendings && db.pendings[r.requestId].status == Enrolled
                                            && r.requestId !in db.receipts))
            || (r.requestId in db.pendings && r.invitationId in db.invitations
                && result == Complete(cfg, db, r.requestId, "invitation", db.invitations[r.invitationId].permissions, env))
            || (CanInsert(db, r.requestId, p) && r.invitationId in db.invitations
                && result == Complete(cfg, db.(pendings := db.pendings[r.requestId := p]), r.requestId, "invitation",
                                      db.invitations[r.invitationId].permissions, env))
  {
  }

  lemma RedeemKeeps(cfg: Config, db: Db, r: Request, env: Env)
    requires Inv(cfg, db) && db.clock <= env.now
    ensures var (db', reply) := Redeem(cfg, db, r, env);
            Keeps(cfg, db, db') && Honest(db', r.requestId, reply)
  {
    RedeemShape(cfg, db, r, env);
    var result := Redeem(cfg, db, r, env);
    var p := NewPending(cfg, r, Invited, None, r.invitationId, env.now);
    if result.0 == db && (result.1.Receipted? ==> r.requestId in db.receipts && result.1.receipt == db.receipts[r.requestId]) {
      StutterKeeps(cfg, db);
      if r.requestId in db.receipts {
        StoredReceiptIsHonest(cfg, db, r.requestId, env);
      }
    } else {
      var permissions := db.invitations[r.invitationId].permissions;
      if CanInsert(db, r.requestId, p) {
        InsertThenComplete(cfg, db, r.requestId, p, permissions, env);
      } else {
        CompleteKeeps(cfg, db, r.requestId, "invitation", permissions, env);
        CompleteHonest(cfg, db, r.requestId, "invitation", permissions, env);
      }
    }
  }

  lemma InsertThenComplete(cfg: Config, db: Db, id: string, p: Pending, permissions: seq<string>, env: Env)
    requires Inv(cfg, db) && CanInsert(db, id, p) && p.status == Waiting && db.clock <= env.now
    ensures var (db', reply) := Complete(cfg, db.(pendings := db.pendings[id := p]), id, "invitation", permissions, env);
            Keeps(cfg, db, db') && Honest(db', id, reply)
  {
    InsertKeeps(cfg, db, id, p);
    var inserted := db.(pendings := db.pendings[id := p]);
    CompleteKeeps(cfg, inserted, id, "invitation", permissions, env);
    CompleteHonest(cfg, inserted, id, "invitation", permissions, env);
    EvolvesTransitive(db, inserted, Complete(cfg, inserted, id, "invitation", permissions, env).0);
  }

  /** The request a completing call is about. */
  ghost function RequestOf(db: Db, call: Call): Option<string> {
    match call
    case CallRedeem(r) => Some(r.requestId)
    case CallApprove(v, _, _) => ByVerifier(db, v)
    case _ => None
  }

  lemma BeginKeeps(cfg: Config, db: Db, r: Request, v: string, env: Env)
    requires Inv(cfg, db)
    ensures Keeps(cfg, db, Begin(cfg, db, r, v, env).0)
  {
    var p := NewPending(cfg, r, BodyRequest, Some(v), "", env.now);
    if Begin(cfg, db, r, v, env).0 == db {
      StutterKeeps(cfg, db);
    } else {
      InsertKeeps(cfg, db, r.requestId, p);
    }
  }

  lemma DenyKeeps(cfg: Config, db: Db, v: string, owner: string, env: Env)
    requires Inv(cfg, db)
    ensures Keeps(cfg, db, Deny(cfg, db, v, owner, env).0)
  {
    if Deny(cfg, db, v, owner, env).0 == db {
      StutterKeeps(cfg, db);
    } else {
      var id := ByVerifier(db, v).value;
      UpdateKeeps(cfg, db, id, db.pendings[id].(status := Denied, owner := owner));
    }
  }

  lemma ApproveKeeps(cfg: Config, db: Db, v: string, owner: string, perms: seq<string>, env: Env)
    requires Inv(cfg, db) && db.clock <= env.now
    ensures var (db', reply) := Approve(cfg, db, v, owner, perms, env);
            && Keeps(cfg, db, db') && reply != Missing
            && (reply.Receipted? ==> ByVerifier(db, v).Some? && Honest(db', ByVerifier(db, v).value, reply))
  {
    if ByVerifier(db, v).None? || Approve(cfg, db, v, owner, perms, env) != Complete(cfg, db, ByVerifier(db, v).value, owner, perms, env) {
      StutterKeeps(cfg, db);
    } else {
      CompleteKeeps(cfg, db, ByVerifier(db, v).value, owner, perms, env);
      CompleteHonest(cfg, db, ByVerifier(db, v).value, owner, perms, env);
    }
  }

  lemma FailedProofKeeps(cfg: Config, db: Db, id: string)
    requires Inv(cfg, db)
    ensures Keeps(cfg, db, FailedProof(db, id).0)
  {
    if id in db.pendings {
      var p' := db.pendings[id].(attempts := db.pendings[id].attempts + 1);
      assert FailedProof(db, id).0 == db.(pendings := db.pendings[id := p']);
      UpdateKeeps(cfg, db, id, p');
    } else {
      StutterKeeps(cfg, db);
    }
  }

  lemma InviteSpent(pendings: Pendings, receipts: Receipts, invitations: map<string, Invitation>, id: string, inv: Invitation)
    requires SpentOnce(pendings, receipts, invitations) && id !in invitations && id != ""
    ensures SpentOnce(pendings, receipts, invitations[id := inv])
  {
    forall k | k in receipts
      ensures Spent(pendings[k].invitationId, invitations[id := inv])
    {
      assert Spent(pendings[k].invitationId, invitations);
    }
  }

  lemma InviteKeeps(cfg: Config, db: Db, id: string, inv: Invitation)
    requires Inv(cfg, db)
    ensures Keeps(cfg, db, Invite(db, id, inv).0)
  {
    if id in db.invitations || id == "" {
      StutterKeeps(cfg, db);
    } else {
      InviteSpent(db.pendings, db.receipts, db.invitations, id, inv);
    }
  }

  lemma PerformKeeps(cfg: Config, db: Db, ev: Event)
    requires Inv(cfg, db) && db.clock <= ev.env.now
    ensures Keeps(cfg, db, Perform(cfg, db, ev).0)
  {
    match ev.call
    case CallBegin(r, v) => BeginKeeps(cfg, db, r, v, ev.env);
    case CallRedeem(r) => RedeemKeeps(cfg, db, r, ev.env);
    case CallApprove(v, owner, perms) => ApproveKeeps(cfg, db, v, owner, perms, ev.env);
    case CallDeny(v, owner) => DenyKeeps(cfg, db, v, owner, ev.env);
    case CallRevoke(b, owner) => RevokeKeeps(cfg, db, b, owner, ev.env);
    case CallInvite(id, inv) => InviteKeeps(cfg, db, id, inv);
    case CallFailedProof(id) => FailedProofKeeps(cfg, db, id);
  }

  lemma PerformHonest(cfg: Config, db: Db, ev: Event)
    requires Inv(cfg, db) && db.clock <= ev.env.now
    ensures var (db', reply) := Perform(cfg, db, ev);
            && reply != Missing
            && (reply.Receipted? ==> RequestOf(db, ev.call).Some? && Honest(db', RequestOf(db, ev.call).value, reply))
  {
    match ev.call
    case CallRedeem(r) => RedeemKeeps(cfg, db, r, ev.env);
    case CallApprove(v, owner, perms) => ApproveKeeps(cfg, db, v, owner, perms, ev.env);
    case _ =>
  }

  lemma ClockKeeps(cfg: Config, db: Db, db': Db, now: int)
    requires Keeps(cfg, db, db') && db.clock <= now
    ensures Keeps(cfg, db, db'.(clock := now))
  {
  }

  /** Every call keeps the invariant, moves the state only as allowed, and replies
      with nothing but the stored receipt. */
  lemma NextKeeps(cfg: Config, db: Db, ev: Event)
    requires Inv(cfg, db) && db.clock <= ev.env.now
    ensures Keeps(cfg, db, Next(cfg, db, ev))
    ensures var reply := Perform(cfg, db, ev).1;
            && reply != Missing
            && (reply.Receipted? ==> RequestOf(db, ev.call).Some? && Honest(Next(cfg, db, ev), RequestOf(db, ev.call).value, reply))
  {
    PerformKeeps(cfg, db, ev);
    PerformHonest(cfg, db, ev);
    ClockKeeps(cfg, db, Perform(cfg, db, ev).0, ev.env.now);
  }

  lemma {:induction false} RunKeeps(cfg: Config, db: Db, evs: seq<Event>)
    requires Inv(cfg, db) && IsRun(cfg, db, evs)
    ensures Keeps(cfg, db, Run(cfg, db, evs))
    decreases |evs|
  {
    if evs != [] {
      NextKeeps(cfg, db, evs[0]);
      RunKeeps(cfg, Next(cfg, db, evs[0]), evs[1..]);
      EvolvesTransitive(db, Next(cfg, db, evs[0]), Run(cfg, db, evs));
    }
  }

  // ----- over every run

  /** In every reachable state a request has a receipt exactly when it is enrolled, an
      invitation backs at most one receipt, and the memberships in memory are those
      in the store, revoked exactly when their credential is. */
  lemma EveryRunIsConsistent(cfg: Config, db: Db, evs: seq<Event>)
    requires Inv(cfg, db) && IsRun(cfg, db, evs)
    ensures var end := Run(cfg, db, evs);
            && (forall id :: id in end.receipts <==> id in end.pendings && end.pendings[id].status == Enrolled)
            && (forall i, j :: i in end.receipts && j in end.receipts && i != j && end.pendings[i].invitationId != "" ==>
                  end.pendings[i].invitationId != end.pendings[j].invitationId)
            && end.memberships == end.rows
            && (forall b :: b in end.bodies ==>
                  && end.bodies[b].membershipRef in end.memberships
                  && (end.memberships[end.bodies[b].membershipRef].status == MemberRevoked <==> end.bodies[b].revokedAt.Some?))
  {
    RunKeeps(cfg, db, evs);
    var end := Run(cfg, db, evs);
    forall b | b in end.bodies ensures HasRow(b, end.bodies[b], end.rows) {
    }
  }

  /** Whenever two calls, any run apart, are answered with a receipt for the same
      request, it is the same receipt. */
  lemma OneReceiptPerRequest(cfg: Config, db: Db, first: Event, between: seq<Event>, second: Event)
    requires Inv(cfg, db) && IsRun(cfg, db, [first]) && IsRun(cfg, Next(cfg, db, first), between)
    requires var later := Run(cfg, Next(cfg, db, first), between); IsRun(cfg, later, [second])
    ensures var later := Run(cfg, Next(cfg, db, first), between);
            var (r1, r2) := (Perform(cfg, db, first).1, Perform(cfg, later, second).1);
            r1.Receipted? && r2.Receipted? && r1.receipt.requestId == r2.receipt.requestId ==> r1.receipt == r2.receipt
  {
    NextKeeps(cfg, db, first);
    var after := Next(cfg, db, first);
    RunKeeps(cfg, after, between);
    NextKeeps(cfg, Run(cfg, after, between), second);
  }

  /** A request that is denied, or has expired, at some point of a run is not enrolled
      at any later point unless it was already. */
  lemma NoEnrollmentAfterRefusal(cfg: Config, db: Db, evs: seq<Event>, id: string)
    requires Inv(cfg, db) && IsRun(cfg, db, evs) && id in db.pendings && db.pendings[id].status != Enrolled
    requires db.pendings[id].status == Denied || db.clock >= db.pendings[id].expiresAt
    ensures var end := Run(cfg, db, evs);
            id in end.pendings && end.pendings[id].status != Enrolled && id !in end.receipts
  {
    RunKeeps(cfg, db, evs);
    assert RowEvolves(db.pendings[id], Run(cfg, db, evs).pendings[id], db.clock);
  }

  /** A revoked credential stays revoked, and so does its membership. */
  lemma RevocationIsPermanent(cfg: Config, db: Db, evs: seq<Event>, b: string)
    requires Inv(cfg, db) && IsRun(cfg, db, evs) && b in db.bodies && db.bodies[b].revokedAt.Some?
    ensures var end := Run(cfg, db, evs);
            && b in end.bodies && end.bodies[b] == db.bodies[b] && end.bodies[b].membershipRef in end.memberships
            && end.memberships[end.bodies[b].membershipRef].status == MemberRevoked
  {
    RunKeeps(cfg, db, evs);
    var end := Run(cfg, db, evs);
    assert BodyEvolves(db.bodies[b], end.bodies[b]);
    assert HasRow(b, end.bodies[b], end.rows);
  }
}
