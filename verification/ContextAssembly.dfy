/** Core/ContextBuilder/builder.go: the loops of BuildSource, each proved against the context
    it is meant to assemble. */
module ContextAssembly {
  import opened Common
  import opened ContextWindow
  import opened TurnGroups
  import opened ContextBuilder
  import Ordering

  method CheckRecords(source: Source, records: seq<Record>) returns (fault: Option<Error>)
    ensures fault == RecordFault(source, records, |records|)
  {
    for index := 0 to |records|
      invariant RecordFault(source, records, index).None?
    {
      var record := records[index];
      if record.source != source {
        FaultPersists(source, records, index + 1);
        return Some(SourceIsolation);
      }
      if Ordering.Blank(record.id) || record.sequence < 0 || (index > 0 && record.sequence <= records[index - 1].sequence) {
        FaultPersists(source, records, index + 1);
        return Some(InvalidSource);
      }
    }
    return None;
  }

  lemma {:induction false} FaultPersists(source: Source, records: seq<Record>, n: nat)
    requires n <= |records| && RecordFault(source, records, n).Some?
    ensures RecordFault(source, records, |records|) == RecordFault(source, records, n)
    decreases |records| - n
  {
    if n < |records| {
      FaultPersists(source, records, n + 1);
    }
  }

  lemma {:induction false} CostsGrow(est: Estimator, messages: seq<Message>, n: nat)
    requires n <= |messages|
    ensures Costs(est, messages[..n]) <= Costs(est, messages)
    decreases |messages| - n
  {
    if n == |messages| {
      assert messages[..n] == messages;
    } else {
      assert messages[..n + 1][..n] == messages[..n];
      CostsGrow(est, messages, n + 1);
    }
  }

  method AdmitInstructions(est: Estimator, instructions: seq<string>, budget: int)
    returns (ok: bool, messages: seq<Message>, tokens: int)
    requires budget > 0
    ensures ok <==> Costs(est, SystemMessages(instructions)) <= budget
    ensures ok ==> messages == SystemMessages(instructions) && tokens == Costs(est, messages)
  {
    ghost var all := SystemMessages(instructions);
    messages, tokens := [], 0;
    for index := 0 to |instructions|
      invariant messages == all[..index] && tokens == Costs(est, messages) <= budget
    {
      var message := Message(SystemRole, instructions[index], "");
      var cost := Cost(est, message);
      assert all[..index + 1][..index] == all[..index] && all[..index + 1] == messages + [message];
      if tokens + cost > budget {
        CostsGrow(est, all, index + 1);
        return false, [], 0;
      }
      messages := messages + [message];
      tokens := tokens + cost;
    }
    assert all[..|instructions|] == all;
    return true, messages, tokens;
  }

  lemma {:induction false} RequiredFaultPersists(est: Estimator, required: seq<Message>, n: nat, spent: int, budget: int)
    requires n <= |required| && RequiredFault(est, required[..n], spent, budget).Some?
    ensures RequiredFault(est, required, spent, budget) == RequiredFault(est, required[..n], spent, budget)
    decreases |required| - n
  {
    if n == |required| {
      assert required[..n] == required;
    } else {
      assert required[..n + 1][..n] == required[..n];
      RequiredFaultPersists(est, required, n + 1, spent, budget);
    }
  }

  method AdmitRequired(est: Estimator, required: seq<Message>, spent: int, budget: int)
    returns (fault: Option<Error>, tail: seq<Message>, tokens: int)
    ensures fault == RequiredFault(est, required, spent, budget)
    ensures fault.None? ==> tail == required && tokens == spent + Costs(est, required)
  {
    tail, tokens := [], spent;
    for index := 0 to |required|
      invariant tail == required[..index] && RequiredFault(est, tail, spent, budget).None?
      invariant tokens == spent + Costs(est, tail)
    {
      var message := required[index];
      assert required[..index + 1][..index] == tail && required[..index + 1] == tail + [message];
      if !ValidMessage(message) {
        RequiredFaultPersists(est, required, index + 1, spent, budget);
        return Some(InvalidRequest), [], 0;
      }
      var cost := Cost(est, message);
      if tokens + cost > budget {
        RequiredFaultPersists(est, required, index + 1, spent, budget);
        return Some(RequiredContextExceedsBudget), [], 0;
      }
      tail := tail + [message];
      tokens := tokens + cost;
    }
    assert required[..|required|] == required;
    return None, tail, tokens;
  }

  ghost predicate AreIdsOf(ids: set<string>, records: seq<Record>) {
    forall id :: id in ids <==> exists r :: r in records && r.id == id
  }

  method CollectHistory(est: Estimator, records: seq<Record>)
    returns (ok: bool, items: seq<Item>, ids: set<string>)
    ensures ok <==> forall r :: r in records ==> ValidRole(r.role)
    ensures ok ==> items == HistoryItems(est, records) && AreIdsOf(ids, records)
  {
    items, ids := [], {};
    for index := 0 to |records|
      invariant forall r :: r in records[..index] ==> ValidRole(r.role)
      invariant items == HistoryItems(est, records)[..index] && AreIdsOf(ids, records[..index])
    {
      var record := records[index];
      assert records[..index + 1] == records[..index] + [record];
      assert forall r :: r in records[..index + 1] <==> r in records[..index] || r == record;
      if !ValidRole(record.role) {
        assert record in records;
        return false, [], {};
      }
      ids := ids + {record.id};
      assert HistoryItems(est, records)[..index + 1] == items + [HistoryItems(est, records)[index]];
      items := items + [Item(record, Cost(est, Message(record.role, record.content, record.provenance)), record.required)];
    }
    assert records[..|records|] == records;
    return true, items, ids;
  }

  /** The first n transients are valid, judged by the history's ids. */
  ghost predicate ValidBefore(transients: seq<Transient>, n: nat, ids: set<string>)
    requires n <= |transients|
  {
    && (forall i :: 0 <= i < n ==>
          !Ordering.Blank(transients[i].id) && ValidMessage(transients[i].message) && transients[i].id !in ids)
    && (forall i, j :: 0 <= i < j < n ==> transients[i].id != transients[j].id)
  }

  lemma ValidBeforeAll(transients: seq<Transient>, records: seq<Record>, ids: set<string>)
    requires AreIdsOf(ids, records)
    ensures ValidBefore(transients, |transients|, ids) <==> ValidTransients(transients, records)
  {
    if ValidTransients(transients, records) {
      forall i | 0 <= i < |transients|
        ensures !Ordering.Blank(transients[i].id) && ValidMessage(transients[i].message) && transients[i].id !in ids
      {
        assert transients[i] in transients;
      }
    }
  }

  method CollectTransients(est: Estimator, source: Source, next: int, transients: seq<Transient>, records: seq<Record>, ids: set<string>)
    returns (ok: bool, items: seq<Item>)
    requires AreIdsOf(ids, records)
    ensures ok <==> ValidTransients(transients, records)
    ensures ok ==> items == TransientItems(est, source, next, transients)
  {
    ValidBeforeAll(transients, records, ids);
    ok, items := CollectValid(est, source, next, transients, ids);
  }

  method CollectValid(est: Estimator, source: Source, next: int, transients: seq<Transient>, ids: set<string>)
    returns (ok: bool, items: seq<Item>)
    ensures ok <==> ValidBefore(transients, |transients|, ids)
    ensures ok ==> items == TransientItems(est, source, next, transients)
  {
    items := [];
    var seen: set<string> := {};
    ghost var all := TransientItems(est, source, next, transients);
    for index := 0 to |transients|
      invariant ValidBefore(transients, index, ids)
      invariant forall id :: id in seen <==> exists i :: 0 <= i < index && transients[i].id == id
      invariant items == all[..index]
    {
      var t := transients[index];
      if Ordering.Blank(t.id) || !ValidMessage(t.message) { return false, []; }
      if t.id in ids { return false, []; }
      if t.id in seen { return false, []; }
      seen := seen + {t.id};
      assert all[..index + 1] == items + [all[index]];
      var record := Record(t.id, source, next + index, t.message.role, t.message.content, t.message.provenance, t.required, t.group, "");
      items := items + [Item(record, Cost(est, t.message), t.required)];
    }
    return true, items;
  }

  /** History and transients are told apart by record id; since no transient borrows a
      history id, that is the split by where they came from. */
  method SplitKept(items: seq<Item>, ids: set<string>, ghost kept: seq<Item>, ghost tail: seq<Item>)
    returns (messages: seq<Message>, included: seq<string>, start: Option<int>, end: Option<int>, transientTail: seq<Message>)
    requires items == kept + tail
    requires forall item :: item in kept ==> item.record.id in ids
    requires forall item :: item in tail ==> item.record.id !in ids
    ensures messages == Messages(kept) && included == RecordIds(kept) && transientTail == Messages(tail)
    ensures start == WindowStart(kept) && end == WindowEnd(kept)
  {
    messages, included, start, end, transientTail := [], [], None, None, [];
    for k := 0 to |items|
      invariant k <= |kept| ==>
                  && messages == Messages(kept[..k]) && included == RecordIds(kept[..k]) && transientTail == []
                  && start == WindowStart(kept[..k]) && end == WindowEnd(kept[..k])
      invariant k >= |kept| ==>
                  && messages == Messages(kept) && included == RecordIds(kept) && transientTail == Messages(tail[..k - |kept|])
                  && start == WindowStart(kept) && end == WindowEnd(kept)
    {
      var item := items[k];
      var message := Message(item.record.role, item.record.content, item.record.provenance);
      assert k < |kept| ==> item == kept[k] && item in kept;
      assert k >= |kept| ==> item == tail[k - |kept|] && item in tail;
      if item.record.id !in ids {
        assert tail[..k + 1 - |kept|] == tail[..k - |kept|] + [item];
        transientTail := transientTail + [message];
        continue;
      }
      assert kept[..k + 1][..k] == kept[..k] && (k + 1 == |kept| ==> kept[..k + 1] == kept);
      messages := messages + [message];
      included := included + [item.record.id];
      if !item.required {
        if start.None? {
          start := Some(item.record.sequence);
        }
        end := Some(item.record.sequence);
      }
    }
    assert tail[..|tail|] == tail && kept[..|kept|] == kept;
  }

  method CountHistory(omitted: seq<Omitted>, ids: set<string>, ghost ours: seq<Omitted>, ghost others: seq<Omitted>)
    returns (count: int)
    requires omitted == ours + others
    requires forall o :: o in ours ==> o.id in ids
    requires forall o :: o in others ==> o.id !in ids
    ensures count == |ours|
  {
    count := 0;
    for k := 0 to |omitted|
      invariant count == if k <= |ours| then k else |ours|
    {
      assert k < |ours| ==> omitted[k] == ours[k] && omitted[k] in ours;
      assert k >= |ours| ==> omitted[k] == others[k - |ours|] && omitted[k] in others;
      if omitted[k].id in ids {
        count := count + 1;
      }
    }
  }

  lemma PartIds(est: Estimator, request: Request, records: seq<Record>, ids: set<string>, chosen: seq<string>)
    requires AreIdsOf(ids, records) && ValidTransients(request.transients, records)
    ensures var history := HistoryItems(est, records);
            var transients := TransientItems(est, request.source, NextSequence(records), request.transients);
            && (forall item :: item in KeptOf(history, chosen) ==> item.record.id in ids)
            && (forall item :: item in KeptOf(transients, chosen) ==> item.record.id !in ids)
            && (forall o :: o in DroppedOf(history, chosen) ==> o.id in ids)
            && (forall o :: o in DroppedOf(transients, chosen) ==> o.id !in ids)
  {
    var history := HistoryItems(est, records);
    var transients := TransientItems(est, request.source, NextSequence(records), request.transients);
    PartsCount(history, chosen);
    PartsCount(transients, chosen);
    forall item | item in history ensures item.record.id in ids {
      assert item.record in records;
    }
    forall item | item in transients ensures item.record.id !in ids {
      var i :| 0 <= i < |transients| && transients[i] == item;
      assert request.transients[i] in request.transients;
    }
  }

  /** Lays out what the policy kept: history before the required messages, transients after. */
  method LayOut(est: Estimator, request: Request, records: seq<Record>, ids: set<string>, system: seq<Message>,
                required: seq<Message>, spent: int, window: Window,
                ghost history: seq<Item>, ghost transients: seq<Item>, ghost chosen: seq<string>)
    returns (result: Result)
    requires system == SystemMessages(request.instructions) && required == request.required
    requires spent == FixedTokens(est, request) && history == HistoryItems(est, records)
    requires transients == TransientItems(est, request.source, NextSequence(records), request.transients)
    requires window.items == KeptOf(history, chosen) + KeptOf(transients, chosen)
    requires window.omitted == DroppedOf(history, chosen) + DroppedOf(transients, chosen)
    requires window.tokens == Assemble(history + transients, chosen).tokens
    requires forall item :: item in KeptOf(history, chosen) ==> item.record.id in ids
    requires forall item :: item in KeptOf(transients, chosen) ==> item.record.id !in ids
    requires forall o :: o in DroppedOf(history, chosen) ==> o.id in ids
    requires forall o :: o in DroppedOf(transients, chosen) ==> o.id !in ids
    ensures result == Compose(est, request, records, chosen)
  {
    var omittedHistory := CountHistory(window.omitted, ids, DroppedOf(history, chosen), DroppedOf(transients, chosen));
    var messages, included, start, end, transientTail :=
      SplitKept(window.items, ids, KeptOf(history, chosen), KeptOf(transients, chosen));
    var metadata := Metadata(
      request.budget,
      spent + window.tokens,
      |records|,
      if records == [] then None else Some(records[0].sequence),
      if records == [] then None else Some(records[|records| - 1].sequence),
      start, end, |included|, omittedHistory, included, window.omitted);
    return Result(
      if request.source.kind == InteractionSession then request.source.id else "",
      system + messages + required + transientTail, metadata);
  }

  lemma AssembleConcat(history: seq<Item>, transients: seq<Item>, chosen: seq<string>)
    ensures var window := Assemble(history + transients, chosen);
            && window.items == KeptOf(history, chosen) + KeptOf(transients, chosen)
            && window.omitted == DroppedOf(history, chosen) + DroppedOf(transients, chosen)
  {
    AssembleParts(history + transients, chosen);
    KeptConcat(history, transients, chosen);
    DroppedConcat(history, transients, chosen);
  }

  lemma ChosenWindow(items: seq<Item>, budget: int)
    requires Choose(items, budget).Selected?
    ensures Choose(items, budget).window == Assemble(items, Chosen(items, budget - RequiredTokens(items)))
  {
  }

  /** Runs the policy over history and transients together; what it kept and omitted falls
      into the two parts again. */
  method RunPolicy(history: seq<Item>, transients: seq<Item>, budget: int, ghost chosen: seq<string>) returns (outcome: Outcome)
    requires chosen == Chosen(history + transients, budget - RequiredTokens(history + transients))
    ensures outcome == Choose(history + transients, budget)
    ensures outcome.Selected? ==>
              && outcome.window.items == KeptOf(history, chosen) + KeptOf(transients, chosen)
              && outcome.window.omitted == DroppedOf(history, chosen) + DroppedOf(transients, chosen)
              && outcome.window.tokens == Assemble(history + transients, chosen).tokens
  {
    outcome := Select(history + transients, budget);
    if outcome.Selected? {
      ChosenWindow(history + transients, budget);
      AssembleConcat(history, transients, chosen);
    }
  }

  method SelectAndLayOut(est: Estimator, request: Request, records: seq<Record>, ids: set<string>, system: seq<Message>,
                         required: seq<Message>, fixed: int, history: seq<Item>, transients: seq<Item>)
    returns (answer: Answer)
    requires AreIdsOf(ids, records) && ValidTransients(request.transients, records)
    requires system == SystemMessages(request.instructions) && required == request.required
    requires fixed == FixedTokens(est, request) && history == HistoryItems(est, records)
    requires transients == TransientItems(est, request.source, NextSequence(records), request.transients)
    ensures answer == BuildWindow(est, request, records)
  {
    ghost var chosen := ChosenGroups(est, request, records);
    var outcome := RunPolicy(history, transients, request.budget - fixed, chosen);
    if outcome.Failed? { return Refused(outcome.error); }
    PartIds(est, request, records, ids, chosen);
    var result := LayOut(est, request, records, ids, system, required, fixed, outcome.window, history, transients, chosen);
    return Built(result);
  }

  method BuildSource(est: Estimator, request: Request, resolution: Resolution) returns (answer: Answer)
    ensures answer == Build(est, request, resolution)
  {
    if !ValidSource(request.source) { return Refused(InvalidSource); }
    if request.budget <= 0 { return Refused(InvalidRequest); }
    if resolution.Unresolved? { return Refused(resolution.error); }
    if resolution.source != request.source { return Refused(SourceIsolation); }
    answer := BuildRecords(est, request, resolution.records);
  }

  method BuildRecords(est: Estimator, request: Request, records: seq<Record>) returns (answer: Answer)
    requires request.budget > 0
    ensures answer == BuildFrom(est, request, records)
  {
    var recordFault := CheckRecords(request.source, records);
    if recordFault.Some? { return Refused(recordFault.value); }
    var fits, system, spent := AdmitInstructions(est, request.instructions, request.budget);
    if !fits { return Refused(RequiredContextExceedsBudget); }
    var fault, required, fixed := AdmitRequired(est, request.required, spent, request.budget);
    if fault.Some? { return Refused(fault.value); }
    var rolesValid, history, ids := CollectHistory(est, records);
    if !rolesValid { return Refused(InvalidRequest); }
    var next := if records == [] then 0 else records[|records| - 1].sequence + 1;
    var transientsValid, transients := CollectTransients(est, request.source, next, request.transients, records, ids);
    if !transientsValid { return Refused(InvalidRequest); }
    answer := SelectAndLayOut(est, request, records, ids, system, required, fixed, history, transients);
  }
}
