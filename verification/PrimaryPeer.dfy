/** Core/Peer/relationship.go: reconstructing the one Primary Peer from portable
    events. Times are integers; 0 is Go's zero time. */
module PrimaryPeer {
  import opened Common
  import opened Ordering

  const SCHEMA_VERSION := 1
  const REVERIFIED := 2

  datatype EventType = Establish | Affirm | ReleaseRequest | ReleaseGrant | Transfer | OtherType(name: string)
  datatype ActorKind = ActorDoll | ActorPeer | OtherActor(name: string)

  /** `assurance` is the rank of the event's assurance, -1 when it is unknown. */
  datatype Event = Event(
    schemaVersion: int,
    id: string,
    kind: EventType,
    at: int,
    tieBreaker: string,
    actorKind: ActorKind,
    actor: string,
    peer: string,
    target: string,
    assurance: int,
    provenance: string)

  datatype Error = InvalidRelationship | InsufficientAssurance
  datatype State = State(peer: string, releaseRequested: bool, lastEvent: string)
  datatype Outcome = Replayed(state: State) | Failed(error: Error)

  function OrderKey(e: Event): Key { Key(e.at, e.tieBreaker, e.id) }
  function EventId(e: Event): string { e.id }

  // ----- validation

  predicate SelfAuthored(e: Event) {
    e.actorKind == ActorPeer && e.actor == e.peer
  }

  /** The error of the event's own validation, if any. */
  function Fault(e: Event): Option<Error> {
    if e.schemaVersion != SCHEMA_VERSION || Blank(e.id) || e.at == 0 || Blank(e.tieBreaker) || Blank(e.peer)
       || Blank(e.provenance) || e.assurance < 0 then Some(InvalidRelationship)
    else if e.actorKind == ActorPeer && Blank(e.actor) then Some(InvalidRelationship)
    else if e.actorKind == ActorDoll && e.actor != "" then Some(InvalidRelationship)
    else match e.kind
      case Establish =>
        if !SelfAuthored(e) || e.target != "" then Some(InvalidRelationship) else Protected(e)
      case Affirm =>
        if !SelfAuthored(e) || e.target != "" then Some(InvalidRelationship) else None
      case ReleaseRequest =>
        if e.actorKind != ActorDoll || e.target != "" then Some(InvalidRelationship) else None
      case ReleaseGrant =>
        if !SelfAuthored(e) || e.target != "" then Some(InvalidRelationship) else Protected(e)
      case Transfer =>
        if !SelfAuthored(e) || Blank(e.target) || e.target == e.peer then Some(InvalidRelationship) else Protected(e)
      case OtherType(_) => Some(InvalidRelationship)
  }

  function Protected(e: Event): Option<Error> {
    if e.assurance < REVERIFIED then Some(InsufficientAssurance) else None
  }

  /** The first fault in the order of the input. */
  function FirstFault(events: seq<Event>): Option<Error> {
    if events == [] then None
    else if Fault(events[0]).Some? then Fault(events[0])
    else FirstFault(events[1..])
  }

  // ----- the fold

  const NOBODY := State("", false, "")

  function Apply(s: State, e: Event): Option<State> {
    match e.kind
    case Establish => if s.peer != "" then None else Some(State(e.peer, false, e.id))
    case Affirm => if s.peer != e.peer then None else Some(s.(lastEvent := e.id))
    case ReleaseRequest =>
      if s.peer != e.peer then None else Some(s.(releaseRequested := true, lastEvent := e.id))
    case ReleaseGrant =>
      if s.peer != e.peer || !s.releaseRequested then None else Some(State("", false, e.id))
    case Transfer => if s.peer != e.peer then None else Some(State(e.target, false, e.id))
    case OtherType(_) => Some(s)
  }

  /** Replaying events that are already in order; a repeated identifier fails. */
  function Fold(ordered: seq<Event>): Outcome {
    if ordered == [] then Replayed(NOBODY)
    else
      var n := |ordered| - 1;
      var before := Fold(ordered[..n]);
      if before.Failed? then before
      else if ordered[n].id in Ids(ordered[..n], EventId) then Failed(InvalidRelationship)
      else match Apply(before.state, ordered[n])
        case None => Failed(InvalidRelationship)
        case Some(s) => Replayed(s)
  }

  /** Some result of sorting the events; the sort may break ties either way. */
  ghost function Arrangement(events: seq<Event>): (ordered: seq<Event>)
    ensures Arranges(ordered, events, OrderKey)
  {
    ArrangementExists(events, OrderKey);
    var ordered :| Arranges(ordered, events, OrderKey);
    ordered
  }

  ghost function Replay(events: seq<Event>): Outcome {
    if FirstFault(events).Some? then Failed(FirstFault(events).value) else Fold(Arrangement(events))
  }

  // ----- order independence

  lemma {:induction false} FoldNeedsDistinctIds(ordered: seq<Event>)
    ensures Fold(ordered).Replayed? ==> Distinct(ordered, EventId)
    ensures Fold(ordered).Failed? ==> Fold(ordered).error == InvalidRelationship
  {
    if ordered != [] {
      var n := |ordered| - 1;
      FoldNeedsDistinctIds(ordered[..n]);
      assert ordered == ordered[..n] + [ordered[n]];
      DistinctSnoc(ordered[..n], ordered[n], EventId);
    }
  }

  lemma DistinctKeysIdentify(s: seq<Event>)
    requires Distinct(s, EventId)
    ensures KeysIdentify(s, OrderKey)
  {
    forall x, y | x in s && y in s && OrderKey(x) == OrderKey(y)
      ensures x == y
    {
      var i :| 0 <= i < |s| && s[i] == x;
      var j :| 0 <= j < |s| && s[j] == y;
      assert i != j ==> EventId(s[i]) != EventId(s[j]);
    }
  }

  lemma ArrangementsAgree(a: seq<Event>, b: seq<Event>)
    requires Sorted(a, OrderKey) && Sorted(b, OrderKey) && multiset(a) == multiset(b)
    ensures Fold(a) == Fold(b)
  {
    PermutedIds(a, b, EventId);
    FoldNeedsDistinctIds(a);
    FoldNeedsDistinctIds(b);
    if Distinct(a, EventId) {
      DistinctKeysIdentify(a);
      DistinctKeysIdentify(b);
      SortedUnique(a, b, OrderKey);
    }
  }

  lemma {:induction false} FirstFaultIsAFault(events: seq<Event>)
    ensures FirstFault(events).Some? ==> exists e :: e in events && Fault(e) == FirstFault(events)
    ensures FirstFault(events).None? <==> forall e :: e in events ==> Fault(e).None?
  {
    if events != [] {
      FirstFaultIsAFault(events[1..]);
      assert events == [events[0]] + events[1..];
    }
  }

  /** Faults of both kinds occur among the events. */
  predicate MixedFaults(events: seq<Event>) {
    && (exists e :: e in events && Fault(e) == Some(InvalidRelationship))
    && (exists e :: e in events && Fault(e) == Some(InsufficientAssurance))
  }

  /** Success and the reconstructed state do not depend on the order of the events;
      nor does the error, unless faults of both kinds occur. */
  lemma OrderDoesNotMatter(events: seq<Event>, shuffled: seq<Event>)
    requires multiset(events) == multiset(shuffled)
    ensures Replay(events).Replayed? <==> Replay(shuffled).Replayed?
    ensures Replay(events).Replayed? || !MixedFaults(events) ==> Replay(events) == Replay(shuffled)
  {
    FirstFaultIsAFault(events);
    FirstFaultIsAFault(shuffled);
    forall e ensures e in events <==> e in shuffled {
      assert e in multiset(events) <==> e in multiset(shuffled);
    }
    if FirstFault(events).None? {
      ArrangementsAgree(Arrangement(events), Arrangement(shuffled));
    }
  }

  /** With faults of both kinds the error does depend on the order: the source
      reports whichever fault it meets first. So the condition above is exact. */
  lemma ErrorIsStableExactlyWithoutMixedFaults(events: seq<Event>)
    ensures !MixedFaults(events) <==>
              forall shuffled :: multiset(shuffled) == multiset(events) ==> Replay(shuffled) == Replay(events)
  {
    if MixedFaults(events) {
      var a :| a in events && Fault(a) == Some(InvalidRelationship);
      var b :| b in events && Fault(b) == Some(InsufficientAssurance);
      var pa := BringToFront(events, a);
      var pb := BringToFront(events, b);
      assert Replay(pa) != Replay(pb);
    } else {
      forall shuffled | multiset(shuffled) == multiset(events)
        ensures Replay(shuffled) == Replay(events)
      {
        OrderDoesNotMatter(events, shuffled);
      }
    }
  }

  /** Two events whose order decides the error. */
  lemma ErrorDependsOnOrder() returns (a: Event, b: Event)
    ensures MixedFaults([a, b])
    ensures Replay([a, b]) == Failed(InvalidRelationship) && Replay([b, a]) == Failed(InsufficientAssurance)
  {
    b := Event(SCHEMA_VERSION, "e", Establish, 1, "t", ActorPeer, "p", "p", "", 0, "v");
    a := b.(schemaVersion := 0);
    assert !Blank("e") && !Blank("t") && !Blank("p") && !Blank("v") by {
      assert !IsSpace("e"[0]) && !IsSpace("t"[0]) && !IsSpace("p"[0]) && !IsSpace("v"[0]);
    }
    assert Fault(a) == Some(InvalidRelationship) && Fault(b) == Some(InsufficientAssurance);
    assert a in [a, b] && b in [a, b];
  }

  lemma BringToFront(events: seq<Event>, e: Event) returns (p: seq<Event>)
    requires e in events
    ensures multiset(p) == multiset(events) && p != [] && p[0] == e
  {
    var i :| 0 <= i < |events| && events[i] == e;
    p := [e] + events[..i] + events[i + 1..];
    assert events == events[..i] + [e] + events[i + 1..];
  }

  // ----- what an accepted history guarantees

  /** The event ends the role of the Primary in state s, as the Primary's own reverified
      act: a transfer, or the grant of a release that was asked for. */
  predicate StepsDown(s: State, e: Event) {
    && e.actorKind == ActorPeer && e.actor == s.peer && e.assurance >= REVERIFIED
    && (e.kind.Transfer? || (e.kind.ReleaseGrant? && s.releaseRequested))
  }

  /** The state after the first n events. */
  function StateAt(ordered: seq<Event>, n: nat): State
    requires n <= |ordered|
  {
    match Fold(ordered[..n])
    case Replayed(s) => s
    case Failed(_) => NOBODY
  }

  lemma PeerChangesByStepDown(ordered: seq<Event>, n: nat)
    requires n < |ordered| && Fold(ordered[..n + 1]).Replayed? && Fault(ordered[n]).None?
    ensures var s, s' := StateAt(ordered, n), StateAt(ordered, n + 1);
            s.peer != "" && s'.peer != s.peer ==> StepsDown(s, ordered[n])
  {
    assert ordered[..n + 1][..n] == ordered[..n];
  }

  lemma PrefixReplays(ordered: seq<Event>, n: nat)
    requires Fold(ordered).Replayed? && n <= |ordered|
    ensures Fold(ordered[..n]).Replayed?
  {
    if Fold(ordered[..n]).Failed? {
      FailureSticks(ordered, n);
    }
  }

  /** Of a course of states in which each change of peer is a step down, the first change
      after position i. */
  lemma {:induction false} FirstStepDown(course: seq<State>, ordered: seq<Event>, i: nat, j: nat) returns (k: nat)
    requires |course| == |ordered| + 1 && i <= j <= |ordered| && course[i].peer != "" && course[j].peer != course[i].peer
    requires forall n :: 0 <= n < |ordered| && course[n].peer != "" && course[n + 1].peer != course[n].peer ==> StepsDown(course[n], ordered[n])
    ensures i <= k < j && course[k].peer == course[i].peer && StepsDown(course[k], ordered[k])
    decreases j
  {
    if course[j - 1].peer != course[i].peer {
      k := FirstStepDown(course, ordered, i, j - 1);
    } else {
      k := j - 1;
      assert course[k + 1] == course[j];
    }
  }

  lemma ChangesAreStepDowns(ordered: seq<Event>, n: nat)
    requires Fold(ordered).Replayed? && n < |ordered| && Fault(ordered[n]).None?
    ensures var s, s' := StateAt(ordered, n), StateAt(ordered, n + 1);
            s.peer != "" && s'.peer != s.peer ==> StepsDown(s, ordered[n])
  {
    PrefixReplays(ordered, n + 1);
    PeerChangesByStepDown(ordered, n);
  }

  lemma StepDownBetween(ordered: seq<Event>, i: nat, j: nat) returns (k: nat)
    requires Fold(ordered).Replayed? && (forall e :: e in ordered ==> Fault(e).None?)
    requires i <= j <= |ordered| && StateAt(ordered, i).peer != "" && StateAt(ordered, j).peer != StateAt(ordered, i).peer
    ensures i <= k < j && StateAt(ordered, k).peer == StateAt(ordered, i).peer && StepsDown(StateAt(ordered, k), ordered[k])
  {
    var course := seq(|ordered| + 1, n requires 0 <= n <= |ordered| => StateAt(ordered, n));
    forall n | 0 <= n < |ordered| && course[n].peer != "" && course[n + 1].peer != course[n].peer
      ensures StepsDown(course[n], ordered[n])
    {
      assert ordered[n] in ordered;
      ChangesAreStepDowns(ordered, n);
    }
    k := FirstStepDown(course, ordered, i, j);
  }

  lemma ArrangedWithoutFault(events: seq<Event>)
    requires FirstFault(events).None?
    ensures forall e :: e in Arrangement(events) ==> Fault(e).None?
  {
    FirstFaultIsAFault(events);
    forall e | e in Arrangement(events) ensures e in events {
      assert e in multiset(Arrangement(events));
    }
  }

  /** Between any two points of an accepted history: whoever is Primary at the first and
      not at the second stepped down by an event of their own in between, while Primary. */
  lemma OnlyThePrimaryStepsDown(events: seq<Event>, i: nat, j: nat) returns (k: nat)
    requires Replay(events).Replayed? && i <= j <= |Arrangement(events)|
    requires StateAt(Arrangement(events), i).peer != ""
    requires StateAt(Arrangement(events), j).peer != StateAt(Arrangement(events), i).peer
    ensures i <= k < j
    ensures var ordered := Arrangement(events);
            StateAt(ordered, k).peer == StateAt(ordered, i).peer && StepsDown(StateAt(ordered, k), ordered[k])
  {
    ArrangedWithoutFault(events);
    k := StepDownBetween(Arrangement(events), i, j);
  }

  predicate Changes(e: Event) {
    e.kind.Establish? || e.kind.ReleaseGrant? || e.kind.Transfer?
  }

  /** A standing release request was made by the Doll to the present Primary, after
      the last change of Primary. */
  lemma {:induction false} RequestWasMade(ordered: seq<Event>)
    requires Fold(ordered).Replayed? && Fold(ordered).state.releaseRequested
    requires forall e :: e in ordered ==> Fault(e).None?
    ensures exists k :: 0 <= k < |ordered| && ordered[k].kind.ReleaseRequest? && ordered[k].actorKind == ActorDoll
                        && ordered[k].peer == Fold(ordered).state.peer
                        && forall m :: k < m < |ordered| ==> !Changes(ordered[m])
  {
    var n := |ordered| - 1;
    var e := ordered[n];
    assert e in ordered;
    if e.kind.ReleaseRequest? {
    } else {
      var init := ordered[..n];
      assert forall x :: x in init ==> x in ordered;
      RequestWasMade(init);
      var k :| 0 <= k < n && init[k].kind.ReleaseRequest? && init[k].actorKind == ActorDoll
               && init[k].peer == Fold(init).state.peer && forall m :: k < m < n ==> !Changes(init[m]);
      assert forall m :: k < m < n ==> ordered[m] == init[m];
      assert ordered[k] == init[k];
    }
  }

  // ----- who is Primary after a history

  /** By the last event that changes the Primary: its peer, nobody, or its target. */
  function PrimaryAfter(ordered: seq<Event>): string {
    if ordered == [] then ""
    else
      var last := ordered[|ordered| - 1];
      match last.kind
      case Establish => last.peer
      case Transfer => last.target
      case ReleaseGrant => ""
      case _ => PrimaryAfter(ordered[..|ordered| - 1])
  }

  predicate AskedAt(ordered: seq<Event>, k: int) {
    0 <= k < |ordered| && ordered[k].kind.ReleaseRequest? && forall m :: k < m < |ordered| ==> !Changes(ordered[m])
  }

  /** The Doll asked for its release and the Primary has not changed since. */
  predicate ReleaseAsked(ordered: seq<Event>) {
    exists k :: 0 <= k < |ordered| && AskedAt(ordered, k)
  }

  lemma AskedAtSnoc(ordered: seq<Event>, e: Event, k: int)
    ensures AskedAt(ordered + [e], k) <==>
              (k == |ordered| && e.kind.ReleaseRequest?) || (k < |ordered| && !Changes(e) && AskedAt(ordered, k))
  {
    var all := ordered + [e];
    assert all[|ordered|] == e && forall m :: 0 <= m < |ordered| ==> all[m] == ordered[m];
  }

  lemma ReleaseAskedSnoc(ordered: seq<Event>, e: Event)
    ensures ReleaseAsked(ordered + [e]) <==> e.kind.ReleaseRequest? || (!Changes(e) && ReleaseAsked(ordered))
  {
    forall k: int
      ensures AskedAt(ordered + [e], k) <==>
                (k == |ordered| && e.kind.ReleaseRequest?) || (k < |ordered| && !Changes(e) && AskedAt(ordered, k))
    {
      AskedAtSnoc(ordered, e, k);
    }
    assert AskedAt(ordered + [e], |ordered|) <==> e.kind.ReleaseRequest?;
  }

  /** The event does not fit the Primary it meets. */
  predicate Unfitting(primary: string, asked: bool, e: Event) {
    if e.kind.Establish? then primary != ""
    else primary != e.peer || (e.kind.ReleaseGrant? && !asked)
  }

  /** Event n repeats an identifier or does not fit the Primary it meets. */
  predicate Misplaced(ordered: seq<Event>, n: nat)
    requires n < |ordered|
  {
    || (exists k :: 0 <= k < n && ordered[k].id == ordered[n].id)
    || Unfitting(PrimaryAfter(ordered[..n]), ReleaseAsked(ordered[..n]), ordered[n])
  }

  predicate KnownKinds(ordered: seq<Event>) {
    forall e :: e in ordered ==> !e.kind.OtherType?
  }

  lemma RepeatsAnIdentifier(ordered: seq<Event>, n: nat)
    requires n < |ordered|
    ensures ordered[n].id in Ids(ordered[..n], EventId) <==> exists k :: 0 <= k < n && ordered[k].id == ordered[n].id
  {
    if k :| 0 <= k < n && ordered[k].id == ordered[n].id {
      assert EventId(ordered[..n][k]) == ordered[n].id;
    }
  }

  /** One event: refused exactly when it does not fit, and otherwise it makes its peer or
      target Primary, or nobody, or leaves the Primary and notes the request. */
  lemma ApplyIsOneChange(s: State, e: Event)
    requires !e.kind.OtherType?
    ensures Apply(s, e).None? <==> Unfitting(s.peer, s.releaseRequested, e)
    ensures Apply(s, e).Some? ==>
              var s' := Apply(s, e).value;
              && (e.kind.Establish? ==> s'.peer == e.peer) && (e.kind.Transfer? ==> s'.peer == e.target)
              && (e.kind.ReleaseGrant? ==> s'.peer == "") && (!Changes(e) ==> s'.peer == s.peer)
              && (s'.releaseRequested <==> e.kind.ReleaseRequest? || (!Changes(e) && s.releaseRequested))
              && s'.lastEvent == e.id
  {
  }

  lemma FoldUnfolds(ordered: seq<Event>)
    requires ordered != [] && Fold(ordered[..|ordered| - 1]).Replayed?
    ensures var n := |ordered| - 1;
            var applied := Apply(Fold(ordered[..n]).state, ordered[n]);
            if (exists k :: 0 <= k < n && ordered[k].id == ordered[n].id) || applied.None? then Fold(ordered).Failed?
            else Fold(ordered) == Replayed(applied.value)
  {
    RepeatsAnIdentifier(ordered, |ordered| - 1);
  }

  lemma PrimaryAfterSnoc(ordered: seq<Event>, e: Event)
    ensures PrimaryAfter(ordered + [e]) ==
            if e.kind.Establish? then e.peer else if e.kind.Transfer? then e.target
            else if e.kind.ReleaseGrant? then "" else PrimaryAfter(ordered)
  {
    assert (ordered + [e])[..|ordered|] == ordered;
  }

  lemma FoldStep(ordered: seq<Event>, init: seq<Event>, e: Event)
    requires ordered == init + [e] && !e.kind.OtherType? && Fold(init).Replayed?
    requires Fold(init).state.peer == PrimaryAfter(init) && Fold(init).state.releaseRequested == ReleaseAsked(init)
    ensures Fold(ordered).Failed? <==> Misplaced(ordered, |init|)
    ensures Fold(ordered).Replayed? ==>
              var s := Fold(ordered).state;
              s.peer == PrimaryAfter(ordered) && s.releaseRequested == ReleaseAsked(ordered) && s.lastEvent == e.id
  {
    assert ordered[..|init|] == init;
    FoldUnfolds(ordered);
    ApplyIsOneChange(Fold(init).state, e);
    PrimaryAfterSnoc(init, e);
    ReleaseAskedSnoc(init, e);
  }

  /** An ordered history is rejected exactly when some event is misplaced. If it is not, the
      Primary is the one the last change made, a release is requested exactly when it was
      asked for since, and the last event is the last. */
  lemma {:induction false} FoldIsTheLastChange(ordered: seq<Event>)
    requires KnownKinds(ordered)
    ensures Fold(ordered).Failed? <==> exists n :: 0 <= n < |ordered| && Misplaced(ordered, n)
    ensures Fold(ordered).Replayed? ==>
              var s := Fold(ordered).state;
              && s.peer == PrimaryAfter(ordered) && s.releaseRequested == ReleaseAsked(ordered)
              && s.lastEvent == if ordered == [] then "" else ordered[|ordered| - 1].id
  {
    if ordered != [] {
      var init, n := ordered[..|ordered| - 1], |ordered| - 1;
      FoldIsTheLastChange(init);
      forall k | 0 <= k < n ensures Misplaced(init, k) <==> Misplaced(ordered, k) {
        assert init[..k] == ordered[..k];
      }
      if Fold(init).Replayed? {
        assert ordered == init + [ordered[n]] && ordered[n] in ordered;
        FoldStep(ordered, init, ordered[n]);
      } else {
        var k :| 0 <= k < n && Misplaced(init, k);
        assert Misplaced(ordered, k);
      }
    }
  }

  /** The replay of any events: failure exactly for an invalid or misplaced event, and
      otherwise the state the events in order lead to. */
  lemma ReplayIsTheLastChange(events: seq<Event>)
    ensures var ordered := Arrangement(events);
            Replay(events).Failed? <==>
              (exists e :: e in events && Fault(e).Some?) || (exists n :: 0 <= n < |ordered| && Misplaced(ordered, n))
    ensures Replay(events).Replayed? ==>
              var ordered, s := Arrangement(events), Replay(events).state;
              && s.peer == PrimaryAfter(ordered) && s.releaseRequested == ReleaseAsked(ordered)
              && s.lastEvent == if ordered == [] then "" else ordered[|ordered| - 1].id
  {
    FirstFaultIsAFault(events);
    if FirstFault(events).None? {
      ArrangedWithoutFault(events);
      FoldIsTheLastChange(Arrangement(events));
    }
  }

  /** Events are replayed by time, then tie breaker, then identifier. */
  lemma ReplayedInOrder(events: seq<Event>, i: nat, j: nat)
    requires i < j < |Arrangement(events)|
    ensures var a, b := Arrangement(events)[i], Arrangement(events)[j];
            && a.at <= b.at
            && (a.at == b.at ==> a.tieBreaker == b.tieBreaker || StringLess(a.tieBreaker, b.tieBreaker))
            && (a.at == b.at && a.tieBreaker == b.tieBreaker ==> a.id == b.id || StringLess(a.id, b.id))
  {
    var a, b := Arrangement(events)[i], Arrangement(events)[j];
    assert !Before(OrderKey(b), OrderKey(a));
    StringTotal(a.tieBreaker, b.tieBreaker);
    StringTotal(a.id, b.id);
  }

  /** What validation lets through: establishing, releasing and handing over the role are
      the peer's own reverified acts, affirming is its own, and only the Doll asks. */
  lemma ValidEventsAreAuthored(e: Event)
    requires Fault(e).None?
    ensures !Blank(e.id) && !Blank(e.tieBreaker) && !Blank(e.peer) && !Blank(e.provenance) && e.at != 0
    ensures e.kind.ReleaseRequest? <==> e.actorKind == ActorDoll
    ensures !e.kind.ReleaseRequest? ==> e.actorKind == ActorPeer && e.actor == e.peer
    ensures Changes(e) ==> e.assurance >= REVERIFIED
    ensures e.kind.Transfer? ==> !Blank(e.target) && e.target != e.peer
    ensures !e.kind.Transfer? ==> e.target == ""
  {
  }

  // ----- the replay

  method ReplayPrimary(events: seq<Event>) returns (outcome: Outcome)
    ensures outcome == Replay(events)
  {
    for i := 0 to |events|
      invariant FirstFault(events[i..]) == FirstFault(events)
    {
      assert events[i..] == [events[i]] + events[i + 1..];
      if Fault(events[i]).Some? {
        return Failed(Fault(events[i]).value);
      }
    }
    assert events[|events|..] == [];
    var ordered := Sort(events, OrderKey);
    ArrangementsAgree(Arrangement(events), ordered);
    outcome := Walk(ordered);
  }

  /** The switch over the sorted events. */
  method Walk(ordered: seq<Event>) returns (outcome: Outcome)
    ensures outcome == Fold(ordered)
  {
    var seen: set<string> := {};
    var state := NOBODY;
    for i := 0 to |ordered|
      invariant seen == Ids(ordered[..i], EventId)
      invariant Fold(ordered[..i]) == Replayed(state)
    {
      var event := ordered[i];
      assert ordered[..i + 1][..i] == ordered[..i];
      if event.id in seen || Apply(state, event).None? {
        FailureSticks(ordered, i + 1);
        return Failed(InvalidRelationship);
      }
      assert ordered[..i + 1] == ordered[..i] + [event];
      IdsSnoc(ordered[..i], event, EventId);
      seen := seen + {event.id};
      state := Apply(state, event).value;
    }
    assert ordered[..|ordered|] == ordered;
    return Replayed(state);
  }

  lemma {:induction false} FailureSticks(ordered: seq<Event>, n: nat)
    requires n <= |ordered| && Fold(ordered[..n]).Failed?
    ensures Fold(ordered) == Fold(ordered[..n])
  {
    if n < |ordered| {
      var m := |ordered| - 1;
      assert ordered[..m][..n] == ordered[..n];
      FailureSticks(ordered[..m], n);
    } else {
      assert ordered[..n] == ordered;
    }
  }
}
