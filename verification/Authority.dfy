/** Core/Peer/authority.go: replaying a portable authority history. This module
    says what an accepted history is and which decision answers a query, without
    reference to any processing order, and derives the guarantees from that.
    AuthorityReplay holds the replay itself. Times are integers; 0 is Go's zero time. */
module Authority {
  import opened Common
  import opened Ordering

  const SCHEMA_VERSION := 1

  datatype Effect = Allow | Prohibit | Revoke | OtherEffect(name: string)
  datatype Role = OrdinaryPeer | PrimaryPeer | OtherRole(name: string)
  datatype Use = NoUse | Reusable | OneTime | OtherUse(name: string)
  datatype Assurance = Unassured | Account | Reverified | OtherAssurance(name: string)
  {
    function Rank(): int {
      match this
      case Unassured => 0
      case Account => 1
      case Reverified => 2
      case OtherAssurance(_) => -1
    }
  }

  datatype Subject = Subject(dollId: string, peerId: string)
  datatype Action = Action(capability: string, operation: string, resource: string)

  datatype Decision = Decision(
    schemaVersion: int,
    id: string,
    issuer: string,
    role: Role,
    subject: Subject,
    action: Action,
    effect: Effect,
    use: Use,
    correlationId: string,
    revokes: string,
    issuedAt: int,
    expiresAt: Option<int>,
    tieBreaker: string,
    provenance: string,
    assurance: Assurance)

  datatype Delegation = Delegation(
    schemaVersion: int,
    id: string,
    grantor: string,
    grantorRole: Role,
    grantee: string,
    subject: Subject,
    action: Action,
    issuedAt: int,
    expiresAt: Option<int>,
    revokedAt: Option<int>,
    verifiedAt: int,
    assurance: Assurance,
    provenance: string)

  datatype Consumption = Consumption(
    schemaVersion: int,
    id: string,
    decisionId: string,
    correlationId: string,
    attemptId: string,
    consumedAt: int,
    provenance: string)

  datatype Query = Query(
    subject: Subject,
    action: Action,
    correlationId: string,
    attemptId: string,
    requireExplicitApproval: bool,
    at: int)

  datatype EffectiveEffect = EffectiveAllow | EffectiveProhibit | EffectiveRequireApproval

  datatype Outcome =
    | Rejected
    | Decided(effect: EffectiveEffect, basis: string, defaultAutonomy: bool, pending: Option<Consumption>)

  datatype History = History(
    records: seq<Decision>,
    delegations: seq<Delegation>,
    consumptions: seq<Consumption>)

  // ----- well-formed records

  predicate ValidDecision(d: Decision) {
    && d.schemaVersion == SCHEMA_VERSION && !Blank(d.id) && !Blank(d.issuer)
    && !Blank(d.subject.dollId) && !Blank(d.action.capability) && !Blank(d.action.operation)
    && d.issuedAt != 0 && !Blank(d.tieBreaker) && !Blank(d.provenance)
    && d.assurance.Rank() >= Account.Rank()
    && (d.role == OrdinaryPeer || d.role == PrimaryPeer)
    && (d.expiresAt.Some? ==> d.expiresAt.value > d.issuedAt)
    && match d.effect
       case Allow =>
         && (d.use == Reusable || d.use == OneTime)
         && (d.use == OneTime ==> !Blank(d.correlationId))
         && (d.use == Reusable ==> d.correlationId == "")
         && d.revokes == ""
       case Prohibit => d.use == NoUse && d.correlationId == "" && d.revokes == ""
       case Revoke =>
         && d.use == NoUse && d.correlationId == "" && d.expiresAt.None?
         && !Blank(d.revokes) && d.revokes != d.id
       case OtherEffect(_) => false
  }

  predicate ValidDelegation(g: Delegation) {
    && g.schemaVersion == SCHEMA_VERSION && !Blank(g.id) && !Blank(g.grantor) && !Blank(g.grantee)
    && g.grantorRole == PrimaryPeer && g.grantor != g.grantee
    && !Blank(g.subject.dollId) && !Blank(g.action.capability) && !Blank(g.action.operation)
    && g.issuedAt != 0 && g.verifiedAt != 0 && g.assurance == Reverified && !Blank(g.provenance)
    && (g.expiresAt.Some? ==> g.expiresAt.value > g.issuedAt)
    && (g.revokedAt.Some? ==> g.revokedAt.value >= g.issuedAt)
  }

  predicate ValidConsumption(c: Consumption) {
    && c.schemaVersion == SCHEMA_VERSION && !Blank(c.id) && !Blank(c.decisionId)
    && !Blank(c.correlationId) && !Blank(c.attemptId) && c.consumedAt != 0 && !Blank(c.provenance)
  }

  predicate ValidQuery(q: Query) {
    !Blank(q.subject.dollId) && !Blank(q.action.capability) && !Blank(q.action.operation) && q.at != 0
  }

  function OrderKey(d: Decision): Key { Key(d.issuedAt, d.tieBreaker, d.id) }
  function DecisionId(d: Decision): string { d.id }
  function DelegationId(g: Delegation): string { g.id }
  function ConsumptionId(c: Consumption): string { c.id }
  function ConsumedDecision(c: Consumption): string { c.decisionId }

  // ----- accepted histories

  /** The delegation g covers decision d as of time `at`. */
  predicate Backs(g: Delegation, d: Decision, at: int) {
    && g.grantee == d.issuer && g.subject == d.subject && g.action == d.action
    && g.issuedAt <= d.issuedAt <= at && g.verifiedAt <= at
    && (g.expiresAt.Some? ==> g.expiresAt.value > at)
    && (g.revokedAt.Some? ==> g.revokedAt.value > at)
  }

  predicate Delegated(d: Decision, delegations: seq<Delegation>, at: int) {
    exists g :: g in delegations && Backs(g, d, at)
  }

  /** t is an earlier decision in the same scope that r has the authority to revoke. */
  predicate MayRevoke(r: Decision, t: Decision) {
    && t.id == r.revokes && Before(OrderKey(t), OrderKey(r))
    && t.subject == r.subject && t.action == r.action
    && (r.role == PrimaryPeer || (t.role != PrimaryPeer && t.issuer == r.issuer))
  }

  /** c claims the one-time approval d, within its lifetime. */
  predicate Claims(c: Consumption, d: Decision) {
    && d.id == c.decisionId && d.effect == Allow && d.use == OneTime
    && c.correlationId == d.correlationId && d.issuedAt <= c.consumedAt
    && (d.expiresAt.Some? ==> d.expiresAt.value > c.consumedAt)
  }

  predicate HasTarget(r: Decision, records: seq<Decision>) {
    exists t :: t in records && MayRevoke(r, t)
  }

  predicate HasApproval(c: Consumption, records: seq<Decision>) {
    exists d :: d in records && Claims(c, d)
  }

  predicate RecordsOk(records: seq<Decision>) {
    && (forall d :: d in records ==> ValidDecision(d))
    && Distinct(records, DecisionId)
    && (forall r :: r in records && r.effect == Revoke ==> HasTarget(r, records))
  }

  predicate DelegationsOk(delegations: seq<Delegation>) {
    && (forall g :: g in delegations ==> ValidDelegation(g))
    && Distinct(delegations, DelegationId)
  }

  predicate ConsumptionsOk(consumptions: seq<Consumption>, records: seq<Decision>) {
    && (forall c :: c in consumptions ==> ValidConsumption(c) && HasApproval(c, records))
    && Distinct(consumptions, ConsumptionId)
    && Distinct(consumptions, ConsumedDecision)
  }

  predicate Accepted(h: History) {
    RecordsOk(h.records) && DelegationsOk(h.delegations) && ConsumptionsOk(h.consumptions, h.records)
  }

  // ----- the answer to a query

  /** Some revocation of d counts at time `at`. */
  predicate RevokedBy(records: seq<Decision>, id: string, delegations: seq<Delegation>, at: int) {
    exists r :: r in records && Revokes(r, id, delegations, at)
  }

  predicate Revoked(h: History, id: string, at: int) {
    RevokedBy(h.records, id, h.delegations, at)
  }

  predicate Revokes(r: Decision, id: string, delegations: seq<Delegation>, at: int) {
    && r.effect == Revoke && r.revokes == id && r.issuedAt <= at
    && (r.role == PrimaryPeer || Delegated(r, delegations, at))
  }

  predicate ConsumedBy(consumptions: seq<Consumption>, id: string, at: int) {
    exists c :: c in consumptions && c.decisionId == id && c.consumedAt <= at
  }

  predicate Consumed(h: History, id: string, at: int) {
    ConsumedBy(h.consumptions, id, at)
  }

  predicate Applicable(d: Decision, q: Query) {
    && d.subject == q.subject && d.action == q.action && d.issuedAt <= q.at
    && (d.expiresAt.Some? ==> d.expiresAt.value > q.at)
    && (d.effect == Allow && d.use == OneTime ==> d.correlationId == q.correlationId)
  }

  /** d is in force for the query. */
  predicate Standing(h: History, q: Query, d: Decision) {
    && d in h.records && d.effect != Revoke
    && !Revoked(h, d.id, q.at) && !Consumed(h, d.id, q.at) && Applicable(d, q)
    && (d.role == PrimaryPeer || Delegated(d, h.delegations, q.at))
  }

  /** Primary decisions outrank ordinary ones; within a rank the latest wins. */
  predicate Outranks(d: Decision, e: Decision) {
    if d.role == PrimaryPeer then e.role != PrimaryPeer || Before(OrderKey(e), OrderKey(d))
    else e.role != PrimaryPeer && Before(OrderKey(e), OrderKey(d))
  }

  ghost predicate IsBasis(h: History, q: Query, d: Decision) {
    Standing(h, q, d) && forall e :: Standing(h, q, e) && e != d ==> Outranks(d, e)
  }

  lemma BasisUnique(h: History, q: Query, d: Decision, e: Decision)
    requires IsBasis(h, q, d) && IsBasis(h, q, e)
    ensures d == e
  {
    BeforeTotal(OrderKey(d), OrderKey(e));
  }

  /** The claim a one-time approval must leave behind. */
  function PendingClaim(d: Decision, q: Query): Consumption {
    Consumption(SCHEMA_VERSION, "consume:" + d.id + ":" + q.attemptId, d.id, q.correlationId, q.attemptId, q.at,
                "core:one-time-consumption")
  }

  function Answer(d: Decision, q: Query): Outcome {
    if d.effect == Prohibit then Decided(EffectiveProhibit, d.id, false, None)
    else if d.use == OneTime then
      if Blank(q.attemptId) then Rejected
      else Decided(EffectiveAllow, d.id, false, Some(PendingClaim(d, q)))
    else Decided(EffectiveAllow, d.id, false, None)
  }

  function DefaultAnswer(q: Query): Outcome {
    if q.requireExplicitApproval then Decided(EffectiveRequireApproval, "", false, None)
    else Decided(EffectiveAllow, "", true, None)
  }

  ghost function Reconcile(h: History, q: Query): Outcome {
    if !ValidQuery(q) || !Accepted(h) then Rejected
    else if exists d :: IsBasis(h, q, d) then
      var d :| IsBasis(h, q, d);
      Answer(d, q)
    else DefaultAnswer(q)
  }

  lemma OutranksTransitive(a: Decision, b: Decision, c: Decision)
    requires Outranks(a, b) && Outranks(b, c)
    ensures Outranks(a, c)
  {
    if Before(OrderKey(c), OrderKey(b)) && Before(OrderKey(b), OrderKey(a)) {
      BeforeTransitive(OrderKey(c), OrderKey(b), OrderKey(a));
    }
  }

  /** The highest-ranking decision in force among the first n records. */
  lemma {:induction false} BestAmong(h: History, q: Query, n: nat) returns (best: Option<Decision>)
    requires n <= |h.records| && Distinct(h.records, DecisionId)
    ensures best.Some? ==> Standing(h, q, best.value) && best.value in h.records[..n]
    ensures forall k :: 0 <= k < n && Standing(h, q, h.records[k]) ==>
              best.Some? && (h.records[k] == best.value || Outranks(best.value, h.records[k]))
  {
    if n == 0 { return None; }
    best := BestAmong(h, q, n - 1);
    var d := h.records[n - 1];
    if Standing(h, q, d) {
      if best.None? { return Some(d); }
      var leader := best.value;
      var j :| 0 <= j < n - 1 && h.records[j] == leader;
      assert DecisionId(h.records[j]) != DecisionId(d);
      BeforeTotal(OrderKey(d), OrderKey(leader));
      if Outranks(d, leader) {
        forall k | 0 <= k < n - 1 && Standing(h, q, h.records[k]) && h.records[k] != leader
          ensures Outranks(d, h.records[k])
        {
          OutranksTransitive(d, leader, h.records[k]);
        }
        return Some(d);
      }
    }
  }

  /** The default is given exactly when no decision is in force. */
  lemma DefaultOnlyWhenNothingStands(h: History, q: Query)
    requires Accepted(h) && ValidQuery(q)
    ensures (exists d :: IsBasis(h, q, d)) <==> (exists d :: Standing(h, q, d))
    ensures Reconcile(h, q) == DefaultAnswer(q) <==> forall d :: !Standing(h, q, d)
  {
    var best := BestAmong(h, q, |h.records|);
    assert h.records[..|h.records|] == h.records;
    if best.Some? {
      assert IsBasis(h, q, best.value);
      forall d | IsBasis(h, q, d) ensures d == best.value {
        BasisUnique(h, q, d, best.value);
      }
      assert ValidDecision(best.value);
      assert Blank("");
    }
  }

  // ----- revocation outlives the revoker's delegation

  /** Whatever delegation backs a decision at query time backs every revocation of
      it issued by then: same grantee, same scope, issued no earlier. */
  lemma DelegationCoversRevocation(r: Decision, t: Decision, delegations: seq<Delegation>, at: int)
    requires MayRevoke(r, t) && r.role != PrimaryPeer && r.issuedAt <= at
    requires Delegated(t, delegations, at)
    ensures Delegated(r, delegations, at)
  {
    var g :| g in delegations && Backs(g, t, at);
    assert Backs(g, r, at);
  }

  lemma DistinctMeansSame(records: seq<Decision>, d: Decision, e: Decision)
    requires Distinct(records, DecisionId) && d in records && e in records && d.id == e.id
    ensures d == e
  {
    var i :| 0 <= i < |records| && records[i] == d;
    var j :| 0 <= j < |records| && records[j] == e;
    assert i != j ==> DecisionId(records[i]) != DecisionId(records[j]);
  }

  lemma RevokedNeverStands(h: History, q: Query, r: Decision, t: Decision)
    requires Accepted(h) && r in h.records && r.effect == Revoke && r.issuedAt <= q.at
    requires t.id == r.revokes
    ensures !Standing(h, q, t)
  {
    if Standing(h, q, t) {
      var target :| target in h.records && MayRevoke(r, target);
      DistinctMeansSame(h.records, t, target);
      if r.role != PrimaryPeer {
        DelegationCoversRevocation(r, t, h.delegations, q.at);
      }
      assert Revokes(r, t.id, h.delegations, q.at);
    }
  }

  /** Once a revocation has been issued, its target is never again the basis of an
      answer: not when the revoking peer's delegation has lapsed since, and not when
      the revocation is itself revoked. */
  lemma RevocationIsFinal(h: History, q: Query, r: Decision)
    requires Accepted(h) && r in h.records && r.effect == Revoke && r.issuedAt <= q.at
    ensures Reconcile(h, q).Decided? ==> Reconcile(h, q).basis != r.revokes
  {
    forall d | IsBasis(h, q, d)
      ensures d.id != r.revokes
    {
      if d.id == r.revokes {
        RevokedNeverStands(h, q, r, d);
      }
    }
    assert ValidDecision(r);
    assert Blank("");
  }

  // ----- order independence and stability of past answers

  lemma SameStandingSameAnswer(h: History, h': History, q: Query)
    requires Accepted(h) <==> Accepted(h')
    requires forall d :: Standing(h, q, d) <==> Standing(h', q, d)
    ensures Reconcile(h, q) == Reconcile(h', q)
  {
    forall d ensures IsBasis(h, q, d) <==> IsBasis(h', q, d) {
    }
    if d :| IsBasis(h, q, d) {
      forall e | IsBasis(h, q, e) ensures e == d {
        BasisUnique(h, q, d, e);
      }
    }
  }

  ghost predicate Permuted(h: History, h': History) {
    && multiset(h.records) == multiset(h'.records)
    && multiset(h.delegations) == multiset(h'.delegations)
    && multiset(h.consumptions) == multiset(h'.consumptions)
  }

  lemma PermutedMembers<T>(a: seq<T>, b: seq<T>)
    requires multiset(a) == multiset(b)
    ensures forall x :: x in a <==> x in b
  {
    forall x ensures x in a <==> x in b {
      assert x in a <==> x in multiset(a);
      assert x in b <==> x in multiset(b);
    }
  }

  lemma PermutedAccepted(h: History, h': History)
    requires Permuted(h, h')
    ensures Accepted(h) <==> Accepted(h')
  {
    PermutedMembers(h.records, h'.records);
    PermutedMembers(h.delegations, h'.delegations);
    PermutedMembers(h.consumptions, h'.consumptions);
    PermutedIds(h.records, h'.records, DecisionId);
    PermutedIds(h.delegations, h'.delegations, DelegationId);
    PermutedIds(h.consumptions, h'.consumptions, ConsumptionId);
    PermutedIds(h.consumptions, h'.consumptions, ConsumedDecision);
    assert forall r :: HasTarget(r, h.records) <==> HasTarget(r, h'.records);
    assert forall c :: HasApproval(c, h.records) <==> HasApproval(c, h'.records);
  }

  /** The answer does not depend on the order of the records, the delegations or
      the consumptions. */
  lemma OrderDoesNotMatter(h: History, h': History, q: Query)
    requires Permuted(h, h')
    ensures Reconcile(h, q) == Reconcile(h', q)
  {
    PermutedAccepted(h, h');
    PermutedMembers(h.records, h'.records);
    PermutedMembers(h.delegations, h'.delegations);
    PermutedMembers(h.consumptions, h'.consumptions);
    assert forall d :: Delegated(d, h.delegations, q.at) <==> Delegated(d, h'.delegations, q.at);
    assert forall id :: Revoked(h, id, q.at) <==> Revoked(h', id, q.at);
    assert forall id :: Consumed(h, id, q.at) <==> Consumed(h', id, q.at);
    SameStandingSameAnswer(h, h', q);
  }

  /** Everything in the history dates from after the given time. */
  predicate After(h: History, at: int) {
    && (forall d :: d in h.records ==> d.issuedAt > at)
    && (forall g :: g in h.delegations ==> g.verifiedAt > at)
    && (forall c :: c in h.consumptions ==> c.consumedAt > at)
  }

  function Append(h: History, later: History): History {
    History(h.records + later.records, h.delegations + later.delegations, h.consumptions + later.consumptions)
  }

  /** Recording what happened later never changes what was answered at a given time,
      however the longer history is ordered. */
  lemma PastAnswersAreStable(h: History, later: History, h': History, q: Query)
    requires Accepted(h) && Accepted(h') && Permuted(h', Append(h, later)) && After(later, q.at)
    ensures Reconcile(h', q) == Reconcile(h, q)
  {
    var whole := Append(h, later);
    OrderDoesNotMatter(h', whole, q);
    PermutedAccepted(h', whole);
    assert forall d :: Delegated(d, whole.delegations, q.at) <==> Delegated(d, h.delegations, q.at);
    assert forall id :: Revoked(whole, id, q.at) <==> Revoked(h, id, q.at);
    assert forall id :: Consumed(whole, id, q.at) <==> Consumed(h, id, q.at);
    SameStandingSameAnswer(whole, h, q);
  }

  // ----- one-time approvals

  lemma ClaimedApproval(h: History, q: Query, c: Consumption) returns (d: Decision)
    requires Reconcile(h, q).Decided? && Reconcile(h, q).pending == Some(c)
    ensures Accepted(h) && ValidQuery(q) && Standing(h, q, d)
    ensures d.effect == Allow && d.use == OneTime && !Blank(q.attemptId) && c == PendingClaim(d, q)
  {
    assert exists d :: IsBasis(h, q, d);
    d :| IsBasis(h, q, d);
    forall e | IsBasis(h, q, e) ensures e == d {
      BasisUnique(h, q, d, e);
    }
    assert Reconcile(h, q) == Answer(d, q);
    assert ValidDecision(d);
  }

  /** The claim returned with a one-time approval extends the history to an accepted
      one exactly when neither its identifier nor its decision was claimed before. */
  lemma ClaimIsAcceptable(h: History, q: Query, c: Consumption)
    requires Reconcile(h, q).Decided? && Reconcile(h, q).pending == Some(c)
    ensures Accepted(h.(consumptions := h.consumptions + [c])) <==>
              c.id !in Ids(h.consumptions, ConsumptionId) && c.decisionId !in Ids(h.consumptions, ConsumedDecision)
  {
    var d := ClaimedApproval(h, q, c);
    assert ValidConsumption(c) by {
      assert ValidDecision(d);
      assert !IsSpace(c.id[0]) && !IsSpace(c.provenance[0]);
    }
    assert HasApproval(c, h.records) by {
      assert d in h.records && Claims(c, d);
    }
    DistinctSnoc(h.consumptions, c, ConsumptionId);
    DistinctSnoc(h.consumptions, c, ConsumedDecision);
  }

  /** A one-time approval with every text but its identifier fixed. */
  function Approval(id: string): Decision {
    Decision(SCHEMA_VERSION, id, "p", PrimaryPeer, Subject("d", ""), Action("c", "o", ""), Allow, OneTime, "x", "",
             1, None, "t", "v", Reverified)
  }

  lemma ApprovalIsValid(id: string)
    requires id != "" && id[0] == 'a'
    ensures ValidDecision(Approval(id))
  {
    var d := Approval(id);
    assert !IsSpace(d.id[0]) && !IsSpace(d.issuer[0]) && !IsSpace(d.subject.dollId[0]) && !IsSpace(d.action.capability[0])
        && !IsSpace(d.action.operation[0]) && !IsSpace(d.tieBreaker[0]) && !IsSpace(d.provenance[0]) && !IsSpace(d.correlationId[0]);
  }

  /** The condition is needed, although the decision was never claimed: the identifier of a
      claim joins decision and attempt with a colon, so decision "a" in attempt "b:c" and
      decision "a:b" in attempt "c" get the same one. */
  lemma ClaimsMayCollide() returns (h: History, q: Query, c: Consumption)
    ensures Accepted(h) && Reconcile(h, q).Decided? && Reconcile(h, q).pending == Some(c)
    ensures c.decisionId !in Ids(h.consumptions, ConsumedDecision)
    ensures !Accepted(h.(consumptions := h.consumptions + [c]))
  {
    var first, second := Approval("a"), Approval("a:b");
    q := Query(first.subject, first.action, "x", "c", true, 3);
    var claimed := PendingClaim(first, q.(attemptId := "b:c"));
    h := History([first, second], [], [claimed]);
    ApprovalIsValid("a");
    ApprovalIsValid("a:b");
    assert claimed.id == "consume:a:b:c" == PendingClaim(second, q).id;
    assert ValidConsumption(claimed) by {
      assert !IsSpace(claimed.id[0]) && !IsSpace(claimed.decisionId[0]) && !IsSpace(claimed.correlationId[0])
          && !IsSpace(claimed.attemptId[0]) && !IsSpace(claimed.provenance[0]);
    }
    assert first in h.records && Claims(claimed, first) && HasApproval(claimed, h.records);
    assert Accepted(h);
    c := CollidingClaim(h, q, first, second, claimed);
  }

  lemma SecondAloneStands(h: History, q: Query, first: Decision, second: Decision, claimed: Consumption)
    requires h == History([first, second], [], [claimed])
    requires first == Approval("a") && second == Approval("a:b") && claimed.decisionId == "a" && claimed.consumedAt == 3
    requires q == Query(first.subject, first.action, "x", "c", true, 3)
    ensures forall d :: Standing(h, q, d) <==> d == second
  {
    assert claimed in h.consumptions && Consumed(h, "a", q.at);
    assert second in h.records;
    assert second.id[1] == ':' && |first.id| == 1;
  }

  lemma CollidingClaim(h: History, q: Query, first: Decision, second: Decision, claimed: Consumption) returns (c: Consumption)
    requires Accepted(h) && h == History([first, second], [], [claimed])
    requires first == Approval("a") && second == Approval("a:b") && claimed.decisionId == "a" && claimed.consumedAt == 3
    requires q == Query(first.subject, first.action, "x", "c", true, 3) && claimed.id == PendingClaim(second, q).id
    ensures Reconcile(h, q).Decided? && Reconcile(h, q).pending == Some(c)
    ensures c.decisionId !in Ids(h.consumptions, ConsumedDecision)
    ensures !Accepted(h.(consumptions := h.consumptions + [c]))
  {
    SecondAloneStands(h, q, first, second, claimed);
    assert IsBasis(h, q, second);
    assert ValidQuery(q) && !Blank(q.attemptId) by {
      assert ValidDecision(first);
      assert !IsSpace(q.attemptId[0]);
    }
    c := PendingClaim(second, q);
    ClaimIsAcceptable(h, q, c);
    assert ConsumptionId(h.consumptions[0]) == c.id;
  }

  /** A consumed approval is never the basis of an answer again, at the time of the
      claim or later, whatever the query and whatever else the history records. */
  lemma ApprovalIsSingleUse(h: History, q: Query, c: Consumption)
    requires c in h.consumptions && c.consumedAt <= q.at
    ensures Reconcile(h, q).Decided? ==> Reconcile(h, q).basis != c.decisionId
  {
    assert Consumed(h, c.decisionId, q.at);
    if Accepted(h) {
      assert ValidConsumption(c);
      assert Blank("");
    }
  }
}
