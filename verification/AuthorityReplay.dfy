/** Core/Peer/authority.go: the replay that computes the answer. It sorts a copy of
    the records, fills maps while walking them, and agrees with Authority.Reconcile. */
module AuthorityReplay {
  import opened Common
  import opened Ordering
  import opened Authority

  method HasDelegation(record: Decision, delegations: seq<Delegation>, at: int) returns (found: bool)
    ensures found == Delegated(record, delegations, at)
  {
    for i := 0 to |delegations|
      invariant forall k :: 0 <= k < i ==> !Backs(delegations[k], record, at)
    {
      if Backs(delegations[i], record, at) {
        return true;
      }
    }
    return false;
  }

  method ValidateDelegations(delegations: seq<Delegation>) returns (ok: bool)
    ensures ok == DelegationsOk(delegations)
  {
    var seen: set<string> := {};
    for i := 0 to |delegations|
      invariant forall k :: 0 <= k < i ==> ValidDelegation(delegations[k])
      invariant seen == Ids(delegations[..i], DelegationId)
      invariant Distinct(delegations[..i], DelegationId)
    {
      var g := delegations[i];
      assert delegations[..i + 1] == delegations[..i] + [g];
      IdsSnoc(delegations[..i], g, DelegationId);
      DistinctSnoc(delegations[..i], g, DelegationId);
      if !ValidDelegation(g) || g.id in seen {
        DistinctPrefix(delegations, i + 1, DelegationId);
        return false;
      }
      seen := seen + {g.id};
    }
    assert delegations[..|delegations|] == delegations;
    return true;
  }

  lemma DistinctPrefix<T>(s: seq<T>, n: nat, id: T -> string)
    requires n <= |s|
    ensures Distinct(s, id) ==> Distinct(s[..n], id)
  {
  }

  /** The decisions by identifier; a later record wins over an earlier one. */
  /** Of decisions with the same identifier the last one is found. */
  function LastWithId(decisions: seq<Decision>, id: string): Option<Decision> {
    if decisions == [] then None
    else if decisions[|decisions| - 1].id == id then Some(decisions[|decisions| - 1])
    else LastWithId(decisions[..|decisions| - 1], id)
  }

  lemma {:induction false} LastWithIdIs(decisions: seq<Decision>, id: string)
    ensures LastWithId(decisions, id).Some? <==> exists d :: d in decisions && d.id == id
    ensures var last := LastWithId(decisions, id);
            last.Some? ==> last.value in decisions && last.value.id == id
  {
    if decisions != [] {
      var init, d := decisions[..|decisions| - 1], decisions[|decisions| - 1];
      LastWithIdIs(init, id);
      assert decisions == init + [d] && d in decisions;
      assert forall x :: x in decisions <==> x in init || x == d;
    }
  }

  method IndexById(decisions: seq<Decision>) returns (byId: map<string, Decision>)
    ensures forall id :: LastWithId(decisions, id) == if id in byId then Some(byId[id]) else None
  {
    byId := map[];
    for i := 0 to |decisions|
      invariant forall id :: LastWithId(decisions[..i], id) == if id in byId then Some(byId[id]) else None
    {
      assert decisions[..i + 1][..i] == decisions[..i];
      byId := byId[decisions[i].id := decisions[i]];
    }
    assert decisions[..|decisions|] == decisions;
  }

  /** The consumption claims the decision its identifier leads to. */
  predicate ClaimsIndexed(c: Consumption, decisions: seq<Decision>) {
    LastWithId(decisions, c.decisionId).Some? && Claims(c, LastWithId(decisions, c.decisionId).value)
  }

  predicate IndexedConsumptionsOk(consumptions: seq<Consumption>, decisions: seq<Decision>) {
    && (forall c :: c in consumptions ==> ValidConsumption(c) && ClaimsIndexed(c, decisions))
    && Distinct(consumptions, ConsumptionId)
    && Distinct(consumptions, ConsumedDecision)
  }

  lemma ClaimedApprovals(c: Consumption, decisions: seq<Decision>)
    ensures ClaimsIndexed(c, decisions) ==> HasApproval(c, decisions)
    ensures Distinct(decisions, DecisionId) && HasApproval(c, decisions) ==> ClaimsIndexed(c, decisions)
  {
    LastWithIdIs(decisions, c.decisionId);
    if Distinct(decisions, DecisionId) && HasApproval(c, decisions) {
      var d :| d in decisions && Claims(c, d);
      DistinctMeansSame(decisions, d, LastWithId(decisions, c.decisionId).value);
    }
  }

  /** With distinct identifiers, which the replay insists on next, the index makes no
      difference. */
  lemma IndexedIsEnough(consumptions: seq<Consumption>, decisions: seq<Decision>)
    ensures IndexedConsumptionsOk(consumptions, decisions) ==> ConsumptionsOk(consumptions, decisions)
    ensures Distinct(decisions, DecisionId) && ConsumptionsOk(consumptions, decisions) ==> IndexedConsumptionsOk(consumptions, decisions)
  {
    forall c | c in consumptions
      ensures ClaimsIndexed(c, decisions) ==> HasApproval(c, decisions)
      ensures Distinct(decisions, DecisionId) && HasApproval(c, decisions) ==> ClaimsIndexed(c, decisions)
    {
      ClaimedApprovals(c, decisions);
    }
  }

  ghost predicate ConsumedAre(consumed: set<string>, consumptions: seq<Consumption>, at: int) {
    forall id :: id in consumed <==> ConsumedBy(consumptions, id, at)
  }

  /** The first i consumptions are in order, and the two sets hold their identifiers and
      the decisions they claim. */
  ghost predicate Tracked(ids: set<string>, claimed: set<string>, consumptions: seq<Consumption>, i: nat, decisions: seq<Decision>)
    requires i <= |consumptions|
  {
    && (forall k :: 0 <= k < i ==> ValidConsumption(consumptions[k]) && ClaimsIndexed(consumptions[k], decisions))
    && ids == Ids(consumptions[..i], ConsumptionId) && claimed == Ids(consumptions[..i], ConsumedDecision)
    && Distinct(consumptions[..i], ConsumptionId) && Distinct(consumptions[..i], ConsumedDecision)
  }

  lemma TrackedStep(ids: set<string>, claimed: set<string>, consumptions: seq<Consumption>, i: nat, decisions: seq<Decision>)
    requires i < |consumptions| && Tracked(ids, claimed, consumptions, i, decisions)
    ensures var c := consumptions[i];
            if ValidConsumption(c) && ClaimsIndexed(c, decisions) && c.id !in ids && c.decisionId !in claimed
            then Tracked(ids + {c.id}, claimed + {c.decisionId}, consumptions, i + 1, decisions)
            else !IndexedConsumptionsOk(consumptions, decisions)
  {
    PrefixStep(consumptions, i);
    DistinctPrefix(consumptions, i + 1, ConsumptionId);
    DistinctPrefix(consumptions, i + 1, ConsumedDecision);
    assert consumptions[i] in consumptions;
  }

  lemma TrackedAll(ids: set<string>, claimed: set<string>, consumptions: seq<Consumption>, decisions: seq<Decision>)
    requires Tracked(ids, claimed, consumptions, |consumptions|, decisions)
    ensures IndexedConsumptionsOk(consumptions, decisions)
  {
    assert consumptions[..|consumptions|] == consumptions;
  }

  method ValidateConsumptions(consumptions: seq<Consumption>, decisions: seq<Decision>, at: int)
    returns (ok: bool, consumed: set<string>)
    ensures ok <==> IndexedConsumptionsOk(consumptions, decisions)
    ensures ok ==> ConsumedAre(consumed, consumptions, at)
  {
    var byDecision := IndexById(decisions);
    consumed := {};
    var ids, claimed: set<string> := {}, {};
    for i := 0 to |consumptions|
      invariant Tracked(ids, claimed, consumptions, i, decisions)
      invariant ConsumedAre(consumed, consumptions[..i], at)
    {
      var c := consumptions[i];
      TrackedStep(ids, claimed, consumptions, i, decisions);
      ConsumedStep(consumed, consumptions, i, at);
      assert LastWithId(decisions, c.decisionId).Some? <==> c.decisionId in byDecision;
      if !ValidConsumption(c) || c.decisionId !in byDecision || !Claims(c, byDecision[c.decisionId])
         || c.id in ids || c.decisionId in claimed {
        return false, {};
      }
      ids := ids + {c.id};
      claimed := claimed + {c.decisionId};
      if c.consumedAt <= at {
        consumed := consumed + {c.decisionId};
      }
    }
    TrackedAll(ids, claimed, consumptions, decisions);
    assert consumptions[..|consumptions|] == consumptions;
    return true, consumed;
  }

  lemma PrefixStep(consumptions: seq<Consumption>, i: nat)
    requires i < |consumptions|
    ensures consumptions[..i + 1] == consumptions[..i] + [consumptions[i]]
    ensures Ids(consumptions[..i + 1], ConsumptionId) == Ids(consumptions[..i], ConsumptionId) + {consumptions[i].id}
    ensures Ids(consumptions[..i + 1], ConsumedDecision)
         == Ids(consumptions[..i], ConsumedDecision) + {consumptions[i].decisionId}
    ensures Distinct(consumptions[..i + 1], ConsumptionId) <==>
              Distinct(consumptions[..i], ConsumptionId) && consumptions[i].id !in Ids(consumptions[..i], ConsumptionId)
    ensures Distinct(consumptions[..i + 1], ConsumedDecision) <==>
              Distinct(consumptions[..i], ConsumedDecision)
              && consumptions[i].decisionId !in Ids(consumptions[..i], ConsumedDecision)
  {
    var init, c := consumptions[..i], consumptions[i];
    assert consumptions[..i + 1] == init + [c];
    IdsSnoc(init, c, ConsumptionId);
    IdsSnoc(init, c, ConsumedDecision);
    DistinctSnoc(init, c, ConsumptionId);
    DistinctSnoc(init, c, ConsumedDecision);
  }

  lemma ConsumedStep(consumed: set<string>, consumptions: seq<Consumption>, i: nat, at: int)
    requires i < |consumptions| && ConsumedAre(consumed, consumptions[..i], at)
    ensures var c := consumptions[i];
            ConsumedAre(if c.consumedAt <= at then consumed + {c.decisionId} else consumed, consumptions[..i + 1], at)
  {
    var init, c := consumptions[..i], consumptions[i];
    assert consumptions[..i + 1] == init + [c];
    assert c in init + [c] && forall x :: x in init + [c] <==> x in init || x == c;
    forall id
      ensures ConsumedBy(init + [c], id, at) <==> ConsumedBy(init, id, at) || (c.decisionId == id && c.consumedAt <= at)
    {
      if x :| x in init && x.decisionId == id && x.consumedAt <= at {
        assert x in init + [c];
      }
    }
  }

  // ----- revocations

  /** In a sorted list what comes before position i in the order stands before it. */
  lemma EarlierInOrder(ordered: seq<Decision>, i: nat, t: Decision)
    requires Sorted(ordered, OrderKey) && i < |ordered| && t in ordered
    requires Before(OrderKey(t), OrderKey(ordered[i]))
    ensures t in ordered[..i]
  {
    var j :| 0 <= j < |ordered| && ordered[j] == t;
    BeforeTotal(OrderKey(t), OrderKey(ordered[i]));
    assert j < i;
    assert ordered[..i][j] == t;
  }

  /** What stands before position i comes before it in the order, if identifiers differ. */
  lemma EarlierInList(ordered: seq<Decision>, i: nat, t: Decision)
    requires Sorted(ordered, OrderKey) && i < |ordered| && t in ordered[..i] && t.id != ordered[i].id
    ensures Before(OrderKey(t), OrderKey(ordered[i])) && t in ordered
  {
    var j :| 0 <= j < i && ordered[j] == t;
    BeforeTotal(OrderKey(t), OrderKey(ordered[i]));
  }

  /** byId holds exactly the records before position i. */
  ghost predicate Indexed(byId: map<string, Decision>, ordered: seq<Decision>, i: nat)
    requires i <= |ordered|
  {
    && Distinct(ordered[..i], DecisionId)
    && byId.Keys == Ids(ordered[..i], DecisionId)
    && forall id :: id in byId ==> byId[id] in ordered[..i] && byId[id].id == id
  }

  /** The test the replay makes on its index of earlier records. */
  predicate TargetOk(r: Decision, byId: map<string, Decision>) {
    && r.revokes in byId && byId[r.revokes].subject == r.subject && byId[r.revokes].action == r.action
    && (r.role == PrimaryPeer || (byId[r.revokes].role != PrimaryPeer && byId[r.revokes].issuer == r.issuer))
  }

  /** The test decides whether the revocation has a target. */
  lemma TargetInIndex(byId: map<string, Decision>, ordered: seq<Decision>, i: nat)
    requires i < |ordered| && Sorted(ordered, OrderKey) && Indexed(byId, ordered, i)
    requires ordered[i].id != ordered[i].revokes
    ensures HasTarget(ordered[i], ordered) <==> TargetOk(ordered[i], byId)
  {
    var r := ordered[i];
    if t :| t in ordered && MayRevoke(r, t) {
      EarlierInOrder(ordered, i, t);
      assert DecisionId(t) in Ids(ordered[..i], DecisionId);
      DistinctMeansSame(ordered[..i], t, byId[r.revokes]);
    }
    if r.revokes in byId {
      EarlierInList(ordered, i, byId[r.revokes]);
    }
  }

  ghost predicate RevokedAre(revoked: set<string>, records: seq<Decision>, delegations: seq<Delegation>, at: int) {
    forall id :: id in revoked <==> RevokedBy(records, id, delegations, at)
  }

  lemma RevokedStep(revoked: set<string>, ordered: seq<Decision>, i: nat, delegations: seq<Delegation>, at: int)
    requires i < |ordered| && RevokedAre(revoked, ordered[..i], delegations, at)
    ensures var r := ordered[i];
            RevokedAre(if Revokes(r, r.revokes, delegations, at) then revoked + {r.revokes} else revoked,
                       ordered[..i + 1], delegations, at)
  {
    var init, r := ordered[..i], ordered[i];
    assert ordered[..i + 1] == init + [r];
    assert r in init + [r] && forall x :: x in init + [r] <==> x in init || x == r;
    forall id
      ensures RevokedBy(init + [r], id, delegations, at) <==>
                RevokedBy(init, id, delegations, at) || Revokes(r, id, delegations, at)
    {
      if x :| x in init && Revokes(x, id, delegations, at) {
        assert x in init + [r];
      }
    }
  }

  lemma IndexStep(byId: map<string, Decision>, ordered: seq<Decision>, i: nat)
    requires i < |ordered| && Indexed(byId, ordered, i)
    ensures ordered[i].id in byId ==> !Distinct(ordered, DecisionId)
    ensures ordered[i].id !in byId ==> Indexed(byId[ordered[i].id := ordered[i]], ordered, i + 1)
  {
    var init, d := ordered[..i], ordered[i];
    assert ordered[..i + 1] == init + [d];
    IdsSnoc(init, d, DecisionId);
    DistinctSnoc(init, d, DecisionId);
    DistinctPrefix(ordered, i + 1, DecisionId);
  }

  method CollectRevoked(ordered: seq<Decision>, delegations: seq<Delegation>, at: int)
    returns (ok: bool, revoked: set<string>)
    requires Sorted(ordered, OrderKey)
    requires forall d :: d in ordered ==> ValidDecision(d)
    ensures ok == RecordsOk(ordered)
    ensures ok ==> RevokedAre(revoked, ordered, delegations, at)
  {
    var byId: map<string, Decision> := map[];
    revoked := {};
    for i := 0 to |ordered|
      invariant Indexed(byId, ordered, i)
      invariant forall k :: 0 <= k < i && ordered[k].effect == Revoke ==> HasTarget(ordered[k], ordered)
      invariant RevokedAre(revoked, ordered[..i], delegations, at)
    {
      var record := ordered[i];
      IndexStep(byId, ordered, i);
      RevokedStep(revoked, ordered, i, delegations, at);
      if record.id in byId {
        return false, {};
      }
      if record.effect == Revoke {
        assert ValidDecision(record);
        TargetInIndex(byId, ordered, i);
        if !TargetOk(record, byId) {
          return false, {};
        }
        var delegated := HasDelegation(record, delegations, at);
        if record.issuedAt <= at && (record.role == PrimaryPeer || delegated) {
          revoked := revoked + {record.revokes};
        }
      }
      byId := byId[record.id := record];
    }
    assert ordered[..|ordered|] == ordered;
    return true, revoked;
  }

  // ----- selection

  /** Position m holds the last decision of its rank in force among the first n. */
  ghost predicate LastAt(h: History, q: Query, ordered: seq<Decision>, n: nat, top: bool, m: int)
    requires n <= |ordered|
  {
    0 <= m < n && OfRank(h, q, ordered[m], top) && forall k :: m < k < n ==> !OfRank(h, q, ordered[k], top)
  }

  ghost predicate LastOfRank(h: History, q: Query, ordered: seq<Decision>, n: nat, top: bool, d: Option<Decision>)
    requires n <= |ordered|
  {
    && (d.None? ==> forall k :: 0 <= k < n ==> !OfRank(h, q, ordered[k], top))
    && (d.Some? ==> exists m :: LastAt(h, q, ordered, n, top, m) && ordered[m] == d.value)
  }

  predicate OfRank(h: History, q: Query, d: Decision, top: bool) {
    Standing(h, q, d) && (d.role == PrimaryPeer) == top
  }

  lemma LastOfRankStep(h: History, q: Query, ordered: seq<Decision>, n: nat, top: bool, d: Option<Decision>)
    requires n < |ordered| && LastOfRank(h, q, ordered, n, top, d)
    ensures LastOfRank(h, q, ordered, n + 1, top, if OfRank(h, q, ordered[n], top) then Some(ordered[n]) else d)
  {
    if OfRank(h, q, ordered[n], top) {
      assert LastAt(h, q, ordered, n + 1, top, n);
    } else if d.Some? {
      var m :| LastAt(h, q, ordered, n, top, m) && ordered[m] == d.value;
      assert LastAt(h, q, ordered, n + 1, top, m);
    }
  }

  /** In a sorted list the last of a rank comes after all others of that rank. */
  lemma LastIsLatest(h: History, q: Query, ordered: seq<Decision>, top: bool, d: Decision, e: Decision)
    requires Sorted(ordered, OrderKey) && Distinct(ordered, DecisionId)
    requires LastOfRank(h, q, ordered, |ordered|, top, Some(d))
    requires e in ordered && OfRank(h, q, e, top) && e != d
    ensures Before(OrderKey(e), OrderKey(d))
  {
    var m :| LastAt(h, q, ordered, |ordered|, top, m) && ordered[m] == d;
    var j :| 0 <= j < |ordered| && ordered[j] == e;
    assert j < m;
    assert DecisionId(ordered[j]) != DecisionId(ordered[m]);
    BeforeTotal(OrderKey(d), OrderKey(e));
  }

  method Select(ordered: seq<Decision>, h: History, q: Query, revoked: set<string>, consumed: set<string>)
    returns (selected: Option<Decision>)
    requires Sorted(ordered, OrderKey) && multiset(ordered) == multiset(h.records) && Distinct(ordered, DecisionId)
    requires forall id :: id in revoked <==> Revoked(h, id, q.at)
    requires forall id :: id in consumed <==> Consumed(h, id, q.at)
    ensures selected.Some? ==> IsBasis(h, q, selected.value)
    ensures selected.None? ==> forall d :: !IsBasis(h, q, d)
  {
    PermutedMembers(ordered, h.records);
    var ordinary, primary: Option<Decision> := None, None;
    for i := 0 to |ordered|
      invariant LastOfRank(h, q, ordered, i, true, primary)
      invariant LastOfRank(h, q, ordered, i, false, ordinary)
    {
      var record := ordered[i];
      LastOfRankStep(h, q, ordered, i, true, primary);
      LastOfRankStep(h, q, ordered, i, false, ordinary);
      if record.effect == Revoke || record.id in revoked || record.id in consumed || !Applicable(record, q) {
        continue;
      }
      if record.role == PrimaryPeer {
        primary := Some(record);
      } else {
        var delegated := HasDelegation(record, h.delegations, q.at);
        if delegated {
          ordinary := Some(record);
        }
      }
    }
    selected := if primary.Some? then primary else ordinary;
    SelectionIsBasis(h, q, ordered, primary, ordinary);
  }

  lemma SelectionIsBasis(h: History, q: Query, ordered: seq<Decision>, primary: Option<Decision>, ordinary: Option<Decision>)
    requires Sorted(ordered, OrderKey) && multiset(ordered) == multiset(h.records) && Distinct(ordered, DecisionId)
    requires LastOfRank(h, q, ordered, |ordered|, true, primary)
    requires LastOfRank(h, q, ordered, |ordered|, false, ordinary)
    ensures var selected := if primary.Some? then primary else ordinary;
            && (selected.Some? ==> IsBasis(h, q, selected.value))
            && (selected.None? ==> forall d :: !IsBasis(h, q, d))
  {
    PermutedMembers(ordered, h.records);
    var selected := if primary.Some? then primary else ordinary;
    forall e | Standing(h, q, e)
      ensures selected.Some? && (e == selected.value || Outranks(selected.value, e))
    {
      assert e in ordered && OfRank(h, q, e, e.role == PrimaryPeer);
      if selected.Some? && e != selected.value && (e.role == PrimaryPeer) == primary.Some? {
        LastIsLatest(h, q, ordered, primary.Some?, selected.value, e);
      }
    }
  }

  /** ReconcileAuthority: the answer is the order-free one. */
  method ReconcileAuthority(records: seq<Decision>, delegations: seq<Delegation>, consumptions: seq<Consumption>, q: Query)
    returns (outcome: Outcome)
    ensures outcome == Reconcile(History(records, delegations, consumptions), q)
  {
    var h := History(records, delegations, consumptions);
    if !ValidQuery(q) { return Rejected; }
    for i := 0 to |records|
      invariant forall k :: 0 <= k < i ==> ValidDecision(records[k])
    {
      if !ValidDecision(records[i]) {
        return Rejected;
      }
    }
    var ordered := Sort(records, OrderKey);
    PermutedMembers(ordered, records);
    var delegationsOk := ValidateDelegations(delegations);
    if !delegationsOk { return Rejected; }
    PermutedAccepted(h, h.(records := ordered));
    var consumptionsOk, consumed := ValidateConsumptions(consumptions, ordered, q.at);
    IndexedIsEnough(consumptions, ordered);
    if !consumptionsOk { return Rejected; }
    var recordsOk, revoked := CollectRevoked(ordered, delegations, q.at);
    if !recordsOk { return Rejected; }
    var selected := Select(ordered, h, q, revoked, consumed);
    if selected.None? { return DefaultAnswer(q); }
    forall e | IsBasis(h, q, e) ensures e == selected.value {
      BasisUnique(h, q, e, selected.value);
    }
    return Answer(selected.value, q);
  }
}
