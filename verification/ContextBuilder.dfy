/** Core/ContextBuilder/builder.go: one bounded context out of system instructions, resolved
    history, required messages and transient messages. */
module ContextBuilder {
  import opened Common
  import opened ContextWindow
  import opened TurnGroups
  import Ordering

  datatype Message = Message(role: Role, content: string, provenance: string)
  datatype Transient = Transient(id: string, message: Message, required: bool, group: string)
  type Estimator = Message -> int

  datatype Request = Request(
    source: Source,
    budget: int,
    instructions: seq<string>,
    required: seq<Message>,
    transients: seq<Transient>)

  datatype Metadata = Metadata(
    budget: int,
    tokens: int,
    historyMessages: int,
    historyStart: Option<int>,
    historyEnd: Option<int>,
    windowStart: Option<int>,
    windowEnd: Option<int>,
    includedHistory: int,
    omittedHistory: int,
    includedIds: seq<string>,
    omitted: seq<Omitted>)

  datatype Result = Result(session: string, messages: seq<Message>, metadata: Metadata)
  datatype Answer = Built(result: Result) | Refused(error: Error)

  // ----- costs

  function Cost(est: Estimator, message: Message): (cost: int)
    ensures cost >= 1 && (est(message) >= 1 ==> cost == est(message))
  {
    if est(message) > 0 then est(message) else 1
  }

  function Costs(est: Estimator, messages: seq<Message>): (cost: int)
    ensures cost >= 0
  {
    if messages == [] then 0
    else Costs(est, messages[..|messages| - 1]) + Cost(est, messages[|messages| - 1])
  }

  lemma {:induction false} CostsConcat(est: Estimator, a: seq<Message>, b: seq<Message>)
    ensures Costs(est, a + b) == Costs(est, a) + Costs(est, b)
  {
    if b == [] {
      assert a + b == a;
    } else {
      CostsConcat(est, a, b[..|b| - 1]);
      assert (a + b)[..|a + b| - 1] == a + b[..|b| - 1];
    }
  }

  // ----- items

  function MessageOf(record: Record): Message {
    Message(record.role, record.content, record.provenance)
  }

  function Messages(items: seq<Item>): seq<Message> {
    seq(|items|, i requires 0 <= i < |items| => MessageOf(items[i].record))
  }

  function RecordIds(items: seq<Item>): seq<string> {
    seq(|items|, i requires 0 <= i < |items| => items[i].record.id)
  }

  function SystemMessages(instructions: seq<string>): seq<Message> {
    seq(|instructions|, i requires 0 <= i < |instructions| => Message(SystemRole, instructions[i], ""))
  }

  function HistoryItem(est: Estimator, record: Record): Item {
    Item(record, Cost(est, MessageOf(record)), record.required)
  }

  function HistoryItems(est: Estimator, records: seq<Record>): seq<Item> {
    seq(|records|, i requires 0 <= i < |records| => HistoryItem(est, records[i]))
  }

  function NextSequence(records: seq<Record>): int {
    if records == [] then 0 else records[|records| - 1].sequence + 1
  }

  function TransientItem(est: Estimator, source: Source, sequence: int, t: Transient): Item {
    var m := t.message;
    Item(Record(t.id, source, sequence, m.role, m.content, m.provenance, t.required, t.group, ""), Cost(est, m), t.required)
  }

  function TransientItems(est: Estimator, source: Source, next: int, transients: seq<Transient>): seq<Item> {
    seq(|transients|, i requires 0 <= i < |transients| => TransientItem(est, source, next + i, transients[i]))
  }

  function Items(est: Estimator, request: Request, records: seq<Record>): seq<Item> {
    HistoryItems(est, records) + TransientItems(est, request.source, NextSequence(records), request.transients)
  }

  // ----- what may go wrong, first fault first

  predicate ValidSource(source: Source) {
    !Ordering.Blank(source.id) && (source.kind == InteractionSession || source.kind == CognitionRun)
  }

  predicate ValidRole(role: Role) {
    !role.OtherRole?
  }

  predicate ValidMessage(message: Message) {
    ValidRole(message.role) && !Ordering.Blank(message.content)
  }

  predicate WellPlaced(records: seq<Record>, i: int)
    requires 0 <= i < |records|
  {
    && !Ordering.Blank(records[i].id) && records[i].sequence >= 0
    && (i > 0 ==> records[i].sequence > records[i - 1].sequence)
  }

  function RecordFault(source: Source, records: seq<Record>, n: nat): Option<Error>
    requires n <= |records|
  {
    if n == 0 then None
    else if RecordFault(source, records, n - 1).Some? then RecordFault(source, records, n - 1)
    else if records[n - 1].source != source then Some(SourceIsolation)
    else if !WellPlaced(records, n - 1) then Some(InvalidSource)
    else None
  }

  function RequiredFault(est: Estimator, required: seq<Message>, spent: int, budget: int): Option<Error> {
    if required == [] then None
    else
      var init, last := required[..|required| - 1], required[|required| - 1];
      if RequiredFault(est, init, spent, budget).Some? then RequiredFault(est, init, spent, budget)
      else if !ValidMessage(last) then Some(InvalidRequest)
      else if spent + Costs(est, required) > budget then Some(RequiredContextExceedsBudget)
      else None
  }

  predicate ValidTransients(transients: seq<Transient>, records: seq<Record>) {
    && (forall t :: t in transients ==> !Ordering.Blank(t.id) && ValidMessage(t.message))
    && (forall t, r :: t in transients && r in records ==> t.id != r.id)
    && (forall i, j :: 0 <= i < j < |transients| ==> transients[i].id != transients[j].id)
  }

  // ----- the context

  function KeptOf(items: seq<Item>, chosen: seq<string>): seq<Item> {
    if items == [] then []
    else
      var last := items[|items| - 1];
      KeptOf(items[..|items| - 1], chosen) + if Kept(last, chosen) then [last] else []
  }

  function DroppedOf(items: seq<Item>, chosen: seq<string>): seq<Omitted> {
    if items == [] then []
    else
      var last := items[|items| - 1];
      DroppedOf(items[..|items| - 1], chosen) + if Kept(last, chosen) then [] else [Omission(last)]
  }

  function WindowStart(items: seq<Item>): Option<int> {
    if items == [] then None
    else
      var start, last := WindowStart(items[..|items| - 1]), items[|items| - 1];
      if start.None? && !last.required then Some(last.record.sequence) else start
  }

  function WindowEnd(items: seq<Item>): Option<int> {
    if items == [] then None
    else
      var last := items[|items| - 1];
      if !last.required then Some(last.record.sequence) else WindowEnd(items[..|items| - 1])
  }

  function FixedTokens(est: Estimator, request: Request): int {
    Costs(est, SystemMessages(request.instructions)) + Costs(est, request.required)
  }

  /** The context for a choice of groups: instructions, kept history, required messages,
      kept transients. */
  function Compose(est: Estimator, request: Request, records: seq<Record>, chosen: seq<string>): Result {
    var history := HistoryItems(est, records);
    var transients := TransientItems(est, request.source, NextSequence(records), request.transients);
    var kept := KeptOf(history, chosen);
    Result(
      if request.source.kind == InteractionSession then request.source.id else "",
      SystemMessages(request.instructions) + Messages(kept) + request.required + Messages(KeptOf(transients, chosen)),
      Metadata(
        request.budget,
        FixedTokens(est, request) + Assemble(history + transients, chosen).tokens,
        |records|,
        if records == [] then None else Some(records[0].sequence),
        if records == [] then None else Some(records[|records| - 1].sequence),
        WindowStart(kept),
        WindowEnd(kept),
        |kept|,
        |DroppedOf(history, chosen)|,
        RecordIds(kept),
        DroppedOf(history, chosen) + DroppedOf(transients, chosen)))
  }

  function WindowBudget(est: Estimator, request: Request): int {
    request.budget - FixedTokens(est, request)
  }

  function ChosenGroups(est: Estimator, request: Request, records: seq<Record>): seq<string> {
    var items := Items(est, request, records);
    Chosen(items, WindowBudget(est, request) - RequiredTokens(items))
  }

  function Build(est: Estimator, request: Request, resolution: Resolution): Answer {
    if !ValidSource(request.source) then Refused(InvalidSource)
    else if request.budget <= 0 then Refused(InvalidRequest)
    else if resolution.Unresolved? then Refused(resolution.error)
    else if resolution.source != request.source then Refused(SourceIsolation)
    else BuildFrom(est, request, resolution.records)
  }

  function BuildFrom(est: Estimator, request: Request, records: seq<Record>): Answer {
    var recordFault := RecordFault(request.source, records, |records|);
    var system := Costs(est, SystemMessages(request.instructions));
    var requiredFault := RequiredFault(est, request.required, system, request.budget);
    if recordFault.Some? then Refused(recordFault.value)
    else if system > request.budget then Refused(RequiredContextExceedsBudget)
    else if requiredFault.Some? then Refused(requiredFault.value)
    else if exists r :: r in records && !ValidRole(r.role) then Refused(InvalidRequest)
    else if !ValidTransients(request.transients, records) then Refused(InvalidRequest)
    else BuildWindow(est, request, records)
  }

  function BuildWindow(est: Estimator, request: Request, records: seq<Record>): Answer {
    match Choose(Items(est, request, records), WindowBudget(est, request))
    case Failed(error) => Refused(error)
    case Selected(_) => Built(Compose(est, request, records, ChosenGroups(est, request, records)))
  }

  // ----- splitting the window

  lemma {:induction false} AssembleParts(items: seq<Item>, chosen: seq<string>)
    ensures Assemble(items, chosen).items == KeptOf(items, chosen)
    ensures Assemble(items, chosen).omitted == DroppedOf(items, chosen)
  {
    if items != [] {
      AssembleParts(items[..|items| - 1], chosen);
    }
  }

  lemma {:induction false} KeptConcat(a: seq<Item>, b: seq<Item>, chosen: seq<string>)
    ensures KeptOf(a + b, chosen) == KeptOf(a, chosen) + KeptOf(b, chosen)
  {
    if b == [] {
      assert a + b == a;
    } else {
      KeptConcat(a, b[..|b| - 1], chosen);
      assert (a + b)[..|a + b| - 1] == a + b[..|b| - 1];
    }
  }

  lemma {:induction false} DroppedConcat(a: seq<Item>, b: seq<Item>, chosen: seq<string>)
    ensures DroppedOf(a + b, chosen) == DroppedOf(a, chosen) + DroppedOf(b, chosen)
  {
    if b == [] {
      assert a + b == a;
    } else {
      DroppedConcat(a, b[..|b| - 1], chosen);
      assert (a + b)[..|a + b| - 1] == a + b[..|b| - 1];
    }
  }

  lemma {:induction false} PartsCount(items: seq<Item>, chosen: seq<string>)
    ensures |KeptOf(items, chosen)| + |DroppedOf(items, chosen)| == |items|
    ensures forall item :: item in KeptOf(items, chosen) ==> item in items
    ensures forall o :: o in DroppedOf(items, chosen) ==> exists item :: item in items && item.record.id == o.id
  {
    if items != [] {
      PartsCount(items[..|items| - 1], chosen);
      assert items[|items| - 1] in items;
    }
  }

  // ----- the reported tokens are the cost of the messages

  predicate Priced(est: Estimator, item: Item) {
    item.tokens == Cost(est, MessageOf(item.record))
  }

  lemma {:induction false} WindowCost(est: Estimator, items: seq<Item>, chosen: seq<string>)
    requires forall item :: item in items ==> Priced(est, item)
    ensures Assemble(items, chosen).tokens == Costs(est, Messages(KeptOf(items, chosen)))
  {
    if items != [] {
      var init, last := items[..|items| - 1], items[|items| - 1];
      WindowCost(est, init, chosen);
      var kept := KeptOf(init, chosen);
      assert Priced(est, last);
      var messages := Messages(kept + [last]);
      assert messages[..|messages| - 1] == Messages(kept);
      assert kept + [] == kept;
    }
  }

  lemma ItemsArePriced(est: Estimator, request: Request, records: seq<Record>)
    ensures forall item :: item in Items(est, request, records) ==> Priced(est, item)
  {
  }

  lemma LayoutCost(est: Estimator, a: seq<Message>, b: seq<Message>, c: seq<Message>, d: seq<Message>)
    ensures Costs(est, a + b + c + d) == Costs(est, a) + Costs(est, c) + Costs(est, b + d)
  {
    CostsConcat(est, a + b + c, d);
    CostsConcat(est, a + b, c);
    CostsConcat(est, a, b);
    CostsConcat(est, b, d);
  }

  lemma SplitWindowCost(est: Estimator, history: seq<Item>, transients: seq<Item>, chosen: seq<string>)
    requires forall item :: item in history + transients ==> Priced(est, item)
    ensures Assemble(history + transients, chosen).tokens ==
            Costs(est, Messages(KeptOf(history, chosen)) + Messages(KeptOf(transients, chosen)))
  {
    var kept, tail := KeptOf(history, chosen), KeptOf(transients, chosen);
    WindowCost(est, history + transients, chosen);
    KeptConcat(history, transients, chosen);
    MessagesConcat(kept, tail);
  }

  lemma MessagesConcat(a: seq<Item>, b: seq<Item>)
    ensures Messages(a + b) == Messages(a) + Messages(b)
  {
  }

  lemma ComposeCost(est: Estimator, request: Request, records: seq<Record>, chosen: seq<string>)
    ensures var r := Compose(est, request, records, chosen);
            r.metadata.tokens == Costs(est, r.messages)
  {
    var history := HistoryItems(est, records);
    var transients := TransientItems(est, request.source, NextSequence(records), request.transients);
    ItemsArePriced(est, request, records);
    SplitWindowCost(est, history, transients, chosen);
    LayoutCost(est, SystemMessages(request.instructions), Messages(KeptOf(history, chosen)), request.required,
               Messages(KeptOf(transients, chosen)));
  }

  /** What is built is the composition of the chosen groups. */
  lemma BuiltIsComposed(est: Estimator, request: Request, resolution: Resolution)
    ensures Build(est, request, resolution).Built? ==>
              && resolution.Resolved? && resolution.source == request.source
              && var records := resolution.records;
                 && Build(est, request, resolution).result == Compose(est, request, records, ChosenGroups(est, request, records))
                 && Choose(Items(est, request, records), WindowBudget(est, request)).Selected?
  {
  }

  lemma ComposedFits(est: Estimator, request: Request, records: seq<Record>)
    requires Choose(Items(est, request, records), WindowBudget(est, request)).Selected?
    ensures Compose(est, request, records, ChosenGroups(est, request, records)).metadata.tokens <= request.budget
  {
    KeepsLongestFittingRun(Items(est, request, records), WindowBudget(est, request));
  }

  /** A built context costs what its metadata says, and no more than the budget. */
  lemma ContextFitsItsBudget(est: Estimator, request: Request, resolution: Resolution)
    ensures Build(est, request, resolution).Built? ==>
              var r := Build(est, request, resolution).result;
              r.metadata.tokens == Costs(est, r.messages) <= request.budget
  {
    BuiltIsComposed(est, request, resolution);
    if Build(est, request, resolution).Built? {
      ComposeCost(est, request, resolution.records, ChosenGroups(est, request, resolution.records));
      ComposedFits(est, request, resolution.records);
    }
  }

  lemma ComposeAccounts(est: Estimator, request: Request, records: seq<Record>, chosen: seq<string>)
    ensures var m := Compose(est, request, records, chosen).metadata;
            && m.includedHistory + m.omittedHistory == m.historyMessages == |records|
            && |m.includedIds| == m.includedHistory
            && m.omittedHistory <= |m.omitted| <= m.omittedHistory + |request.transients|
  {
    PartsCount(HistoryItems(est, records), chosen);
    PartsCount(TransientItems(est, request.source, NextSequence(records), request.transients), chosen);
  }

  /** Every history record is either included or reported as omitted, and what is not
      history among the omissions is transient. */
  lemma HistoryIsAccountedFor(est: Estimator, request: Request, resolution: Resolution)
    ensures Build(est, request, resolution).Built? ==>
              var m := Build(est, request, resolution).result.metadata;
              && resolution.Resolved? && m.includedHistory + m.omittedHistory == m.historyMessages == |resolution.records|
              && |m.includedIds| == m.includedHistory
              && m.omittedHistory <= |m.omitted| <= m.omittedHistory + |request.transients|
  {
    BuiltIsComposed(est, request, resolution);
    if Build(est, request, resolution).Built? {
      ComposeAccounts(est, request, resolution.records, ChosenGroups(est, request, resolution.records));
    }
  }

  // ----- turns stay whole

  /** Which items are kept, by position. */
  function KeptPositions(items: seq<Item>, chosen: seq<string>): seq<nat> {
    if items == [] then []
    else
      var n := |items| - 1;
      KeptPositions(items[..n], chosen) + if Kept(items[n], chosen) then [n] else []
  }

  lemma {:induction false} KeptPositionsAre(items: seq<Item>, chosen: seq<string>)
    ensures var ps, kept := KeptPositions(items, chosen), KeptOf(items, chosen);
            && |ps| == |kept|
            && (forall k :: 0 <= k < |ps| ==> ps[k] < |items| && kept[k] == items[ps[k]])
            && (forall j, k :: 0 <= j < k < |ps| ==> ps[j] < ps[k])
            && (forall i :: 0 <= i < |items| && Kept(items[i], chosen) ==> i in ps)
  {
    if items != [] {
      KeptPositionsAre(items[..|items| - 1], chosen);
    }
  }

  /** If a response of a turn is kept, so is the message that opened the turn. */
  lemma InitiatorIsKept(est: Estimator, source: Source, history: seq<HistoryMessage>, chosen: seq<string>, u: int, a: int)
    requires Initiates(history, u, a)
    requires history[a].role == AssistantRole || (history[a].role == ToolRole && history[a].turn != "")
    requires Kept(HistoryItem(est, RecordOf(source, history, a)), chosen)
    ensures Kept(HistoryItem(est, RecordOf(source, history, u)), chosen)
  {
    TurnSharesGroup(history, u, a);
  }

  lemma TurnsAmongKept(est: Estimator, source: Source, history: seq<HistoryMessage>, chosen: seq<string>)
    ensures var positions := KeptPositions(HistoryItems(est, Records(source, history)), chosen);
            forall k :: 0 <= k < |positions| && Responds(history, positions[k]) ==> Opens(history, positions, k)
  {
    var items := HistoryItems(est, Records(source, history));
    var positions := KeptPositions(items, chosen);
    KeptPositionsAre(items, chosen);
    KeptAreKept(items, chosen);
    forall k | 0 <= k < |positions| && Responds(history, positions[k])
      ensures Opens(history, positions, k)
    {
      var a := positions[k];
      assert items[a] in KeptOf(items, chosen);
      VisibleResponses(history, a);
      var u :| 0 <= u < |history| && Initiates(history, u, a);
      InitiatorIsKept(est, source, history, chosen, u, a);
      assert items[u] == HistoryItem(est, RecordOf(source, history, u));
      var j :| 0 <= j < |positions| && positions[j] == u;
    }
  }

  lemma KeptHistoryMessages(est: Estimator, source: Source, history: seq<HistoryMessage>, chosen: seq<string>)
    ensures var items := HistoryItems(est, Records(source, history));
            var positions, messages := KeptPositions(items, chosen), Messages(KeptOf(items, chosen));
            && Rising(positions) && |positions| == |messages| == |KeptOf(items, chosen)|
            && forall k :: 0 <= k < |positions| ==>
                 positions[k] < |history| && messages[k] == Message(history[positions[k]].role, history[positions[k]].content, "")
  {
    KeptPositionsAre(HistoryItems(est, Records(source, history)), chosen);
  }

  lemma SliceIs(messages: seq<Message>, from: nat, part: seq<Message>)
    requires from + |part| <= |messages| && messages[from..from + |part|] == part
    ensures forall k :: 0 <= k < |part| ==> part[k] == messages[from + k]
  {
  }

  lemma KeptHistoryLayout(est: Estimator, request: Request, history: seq<HistoryMessage>, chosen: seq<string>)
    ensures var records := Records(request.source, history);
            var r := Compose(est, request, records, chosen);
            var positions := KeptPositions(HistoryItems(est, records), chosen);
            Layout(r, |request.instructions|, history, positions)
  {
    var records := Records(request.source, history);
    KeptHistoryMessages(est, request.source, history, chosen);
    ComposedInOrder(est, request, records, chosen);
    SliceIs(Compose(est, request, records, chosen).messages, |request.instructions|, Messages(KeptOf(HistoryItems(est, records), chosen)));
  }

  /** The history part of the context is the messages at these rising positions. */
  predicate Layout(r: Result, n: nat, history: seq<HistoryMessage>, positions: seq<nat>) {
    && |positions| == r.metadata.includedHistory && n + |positions| <= |r.messages|
    && Rising(positions)
    && (forall k :: 0 <= k < |positions| ==>
          && positions[k] < |history|
          && r.messages[n + k] == Message(history[positions[k]].role, history[positions[k]].content, ""))
  }

  /** Over any session history: the included history is, in order, the messages at some
      rising positions, and every included response of a turn comes after the included
      user message that opened that turn. Tool records without a recorded turn have none. */
  lemma TurnsStayWhole(est: Estimator, request: Request, history: seq<HistoryMessage>)
    returns (positions: seq<nat>)
    ensures Build(est, request, Resolve(request.source, Fetched(history))).Built? ==>
              Layout(Build(est, request, Resolve(request.source, Fetched(history))).result, |request.instructions|, history, positions)
    ensures forall k :: 0 <= k < |positions| && Responds(history, positions[k]) ==> Opens(history, positions, k)
  {
    var resolution := Resolve(request.source, Fetched(history));
    BuiltIsComposed(est, request, resolution);
    var records := Records(request.source, history);
    assert resolution.Resolved? ==> resolution.records == records;
    var chosen := ChosenGroups(est, request, records);
    positions := KeptPositions(HistoryItems(est, records), chosen);
    KeptHistoryLayout(est, request, history, chosen);
    TurnsAmongKept(est, request.source, history, chosen);
  }

  predicate Responds(history: seq<HistoryMessage>, a: nat) {
    a < |history| && (history[a].role == AssistantRole || (history[a].role == ToolRole && history[a].turn != ""))
  }

  predicate Opens(history: seq<HistoryMessage>, positions: seq<nat>, k: nat)
    requires k < |positions|
  {
    exists j :: 0 <= j < k && Initiates(history, positions[j], positions[k])
  }

  lemma {:induction false} KeptAreKept(items: seq<Item>, chosen: seq<string>)
    ensures forall item :: item in KeptOf(items, chosen) ==> Kept(item, chosen)
  {
    if items != [] {
      KeptAreKept(items[..|items| - 1], chosen);
    }
  }

  /** What a context is ever built from: a known source that is named and speaks for itself,
      messages with a known role, and required and transient ones that say something. */
  lemma BuiltFromSoundInput(est: Estimator, request: Request, resolution: Resolution)
    ensures Build(est, request, resolution).Built? ==>
              && (request.source.kind == InteractionSession || request.source.kind == CognitionRun)
              && !Ordering.Blank(request.source.id) && request.budget > 0
              && resolution.Resolved? && resolution.source == request.source
              && (forall i :: 0 <= i < |resolution.records| ==> SoundRecord(request.source, resolution.records, i))
              && (forall m :: m in request.required ==> SoundMessage(m))
              && (forall t :: t in request.transients ==> !Ordering.Blank(t.id) && SoundMessage(t.message))
  {
    if Build(est, request, resolution).Built? {
      BuiltWithoutFault(est, request, resolution.records);
      SoundWithoutFault(est, request, resolution.records);
    }
  }

  lemma SoundWithoutFault(est: Estimator, request: Request, records: seq<Record>)
    requires RecordFault(request.source, records, |records|).None? && (forall r :: r in records ==> ValidRole(r.role))
    requires var spent := Costs(est, SystemMessages(request.instructions));
             spent <= request.budget && RequiredFault(est, request.required, spent, request.budget).None?
    requires ValidTransients(request.transients, records)
    ensures forall i :: 0 <= i < |records| ==> SoundRecord(request.source, records, i)
    ensures forall m :: m in request.required ==> SoundMessage(m)
    ensures forall t :: t in request.transients ==> !Ordering.Blank(t.id) && SoundMessage(t.message)
  {
    NoRecordFault(request.source, records, |records|);
    NoRequiredFault(est, request.required, Costs(est, SystemMessages(request.instructions)), request.budget);
    forall i | 0 <= i < |records| ensures SoundRecord(request.source, records, i) {
      assert records[i] in records && WellPlaced(records, i);
    }
    forall m | m in request.required ensures SoundMessage(m) {
      assert ValidMessage(m);
    }
    forall t | t in request.transients ensures !Ordering.Blank(t.id) && SoundMessage(t.message) {
      assert ValidMessage(t.message);
    }
  }

  predicate KnownRole(role: Role) {
    role == SystemRole || role == UserRole || role == AssistantRole || role == ToolRole
  }

  predicate SoundMessage(m: Message) {
    KnownRole(m.role) && exists k :: 0 <= k < |m.content| && !Ordering.IsSpace(m.content[k])
  }

  predicate SoundRecord(source: Source, records: seq<Record>, i: nat)
    requires i < |records|
  {
    && records[i].source == source && KnownRole(records[i].role) && !Ordering.Blank(records[i].id) && records[i].sequence >= 0
    && (i > 0 ==> records[i - 1].sequence < records[i].sequence)
  }

  // ----- the order of the context

  /** First the instructions, then the included history, then the required messages, then the
      kept transients as they were given; every required transient is among them. */
  lemma ContextIsInOrder(est: Estimator, request: Request, resolution: Resolution) returns (tail: seq<nat>)
    ensures Build(est, request, resolution).Built? ==>
              && InOrder(request, Build(est, request, resolution).result, tail)
              && Rising(tail) && forall i :: 0 <= i < |request.transients| && request.transients[i].required ==> i in tail
  {
    BuiltIsComposed(est, request, resolution);
    tail := [];
    if Build(est, request, resolution).Built? {
      var records := resolution.records;
      var chosen := ChosenGroups(est, request, records);
      tail := KeptPositions(TransientItems(est, request.source, NextSequence(records), request.transients), chosen);
      TransientsInOrder(est, request, records, chosen);
      ComposedInOrder(est, request, records, chosen);
    }
  }

  predicate InOrder(request: Request, r: Result, tail: seq<nat>) {
    var a := |request.instructions|;
    var b := a + r.metadata.includedHistory;
    var c := b + |request.required|;
    && 0 <= a <= b <= c && |r.messages| == c + |tail|
    && (forall k :: 0 <= k < a ==> r.messages[k] == Message(SystemRole, request.instructions[k], ""))
    && r.messages[b..c] == request.required
    && (forall k :: 0 <= k < |tail| ==> tail[k] < |request.transients| && r.messages[c + k] == request.transients[tail[k]].message)
  }

  lemma TransientsInOrder(est: Estimator, request: Request, records: seq<Record>, chosen: seq<string>)
    ensures var transients := TransientItems(est, request.source, NextSequence(records), request.transients);
            var tail, messages := KeptPositions(transients, chosen), Messages(KeptOf(transients, chosen));
            && Rising(tail) && |messages| == |tail|
            && (forall k :: 0 <= k < |tail| ==> tail[k] < |request.transients| && messages[k] == request.transients[tail[k]].message)
            && forall i :: 0 <= i < |request.transients| && request.transients[i].required ==> i in tail
  {
    KeptPositionsAre(TransientItems(est, request.source, NextSequence(records), request.transients), chosen);
  }

  lemma ComposedInOrder(est: Estimator, request: Request, records: seq<Record>, chosen: seq<string>)
    ensures var r := Compose(est, request, records, chosen);
            var transients := TransientItems(est, request.source, NextSequence(records), request.transients);
            var a := |request.instructions|;
            var b := a + r.metadata.includedHistory;
            var c := b + |request.required|;
            && 0 <= a <= b <= c <= |r.messages|
            && (forall k :: 0 <= k < a ==> r.messages[k] == Message(SystemRole, request.instructions[k], ""))
            && r.messages[a..b] == Messages(KeptOf(HistoryItems(est, records), chosen))
            && r.messages[b..c] == request.required && r.messages[c..] == Messages(KeptOf(transients, chosen))
  {
  }

  // ----- the reported window

  predicate Ascending(items: seq<Item>) {
    forall i, j :: 0 <= i < j < |items| ==> items[i].record.sequence < items[j].record.sequence
  }

  /** Start and end are the sequences of optional items, and all optional items lie between
      them; without optional items there is no window. */
  ghost predicate Spans(items: seq<Item>, start: Option<int>, end: Option<int>) {
    && (start.Some? <==> end.Some?)
    && (start.None? <==> forall item :: item in items ==> item.required)
    && (start.Some? ==>
          && (exists item :: item in items && !item.required && item.record.sequence == start.value)
          && (exists item :: item in items && !item.required && item.record.sequence == end.value)
          && (forall item :: item in items && !item.required ==> start.value <= item.record.sequence <= end.value))
  }

  lemma {:induction false} WindowSpans(items: seq<Item>)
    requires Ascending(items)
    ensures Spans(items, WindowStart(items), WindowEnd(items))
  {
    if items != [] {
      var init, last := items[..|items| - 1], items[|items| - 1];
      WindowSpans(init);
      assert forall item :: item in items <==> item in init || item == last;
    }
  }

  lemma {:induction false} SequencesRise(source: Source, records: seq<Record>, i: nat, j: nat)
    requires RecordFault(source, records, |records|).None? && i < j < |records|
    ensures records[i].sequence < records[j].sequence
  {
    NoRecordFault(source, records, |records|);
    assert WellPlaced(records, j);
    if i < j - 1 {
      SequencesRise(source, records, i, j - 1);
    }
  }

  lemma KeptAscend(est: Estimator, source: Source, records: seq<Record>, chosen: seq<string>)
    requires RecordFault(source, records, |records|).None?
    ensures Ascending(KeptOf(HistoryItems(est, records), chosen))
  {
    var items := HistoryItems(est, records);
    var ps, kept := KeptPositions(items, chosen), KeptOf(items, chosen);
    KeptPositionsAre(items, chosen);
    forall i, j | 0 <= i < j < |kept| ensures kept[i].record.sequence < kept[j].record.sequence {
      SequencesRise(source, records, ps[i], ps[j]);
    }
  }

  /** The reported window spans exactly the optional history that is included. */
  lemma WindowSpansIncluded(est: Estimator, request: Request, records: seq<Record>)
    ensures BuildFrom(est, request, records).Built? ==>
              var m := BuildFrom(est, request, records).result.metadata;
              Spans(KeptOf(HistoryItems(est, records), ChosenGroups(est, request, records)), m.windowStart, m.windowEnd)
  {
    if BuildFrom(est, request, records).Built? {
      KeptAscend(est, request.source, records, ChosenGroups(est, request, records));
      WindowSpans(KeptOf(HistoryItems(est, records), ChosenGroups(est, request, records)));
    }
  }

  // ----- when a context is built

  predicate WellFormed(request: Request, records: seq<Record>) {
    && (forall i :: 0 <= i < |records| ==>
          && records[i].source == request.source && WellPlaced(records, i) && ValidRole(records[i].role)
          && !(records[i].required && records[i].omitReason != ""))
    && (forall m :: m in request.required ==> ValidMessage(m))
    && ValidTransients(request.transients, records)
  }

  lemma {:induction false} NoRecordFault(source: Source, records: seq<Record>, n: nat)
    requires n <= |records|
    ensures RecordFault(source, records, n).None? <==>
              forall i :: 0 <= i < n ==> records[i].source == source && WellPlaced(records, i)
  {
    if n > 0 {
      NoRecordFault(source, records, n - 1);
    }
  }

  lemma {:induction false} NoRequiredFault(est: Estimator, required: seq<Message>, spent: int, budget: int)
    requires spent <= budget
    ensures RequiredFault(est, required, spent, budget).None? <==>
              (forall m :: m in required ==> ValidMessage(m)) && spent + Costs(est, required) <= budget
  {
    if required != [] {
      var init, last := required[..|required| - 1], required[|required| - 1];
      NoRequiredFault(est, init, spent, budget);
      assert required == init + [last];
      assert forall m :: m in required <==> m in init || m == last;
    }
  }

  lemma ItemsMalformed(est: Estimator, request: Request, records: seq<Record>)
    ensures (exists item :: item in Items(est, request, records) && Malformed(item)) <==>
              exists r :: r in records && r.required && r.omitReason != ""
  {
    var items := Items(est, request, records);
    if r :| r in records && r.required && r.omitReason != "" {
      var i :| 0 <= i < |records| && records[i] == r;
      assert items[i] == HistoryItem(est, records[i]) && items[i] in items;
    }
    if item :| item in items && Malformed(item) {
      var i :| 0 <= i < |items| && items[i] == item;
      assert records[i] in records;
    }
  }

  lemma ChosenExactlyWhen(items: seq<Item>, budget: int)
    requires forall item :: item in items ==> item.tokens > 0
    ensures Choose(items, budget).Selected? <==>
              !(exists item :: item in items && Malformed(item)) && RequiredTokens(items) <= budget
  {
    RequiredNonNegative(items);
  }

  lemma BuiltWithoutFault(est: Estimator, request: Request, records: seq<Record>)
    ensures BuildFrom(est, request, records).Built? <==>
              && RecordFault(request.source, records, |records|).None?
              && Costs(est, SystemMessages(request.instructions)) <= request.budget
              && RequiredFault(est, request.required, Costs(est, SystemMessages(request.instructions)), request.budget).None?
              && (forall r :: r in records ==> ValidRole(r.role))
              && ValidTransients(request.transients, records)
              && Choose(Items(est, request, records), WindowBudget(est, request)).Selected?
  {
  }

  lemma WindowChosenExactlyWhen(est: Estimator, request: Request, records: seq<Record>)
    ensures Choose(Items(est, request, records), WindowBudget(est, request)).Selected? <==>
              && (forall r :: r in records ==> !(r.required && r.omitReason != ""))
              && FixedTokens(est, request) + RequiredTokens(Items(est, request, records)) <= request.budget
    ensures RequiredTokens(Items(est, request, records)) >= 0
  {
    ItemsMalformed(est, request, records);
    ChosenExactlyWhen(Items(est, request, records), WindowBudget(est, request));
    RequiredNonNegative(Items(est, request, records));
  }

  /** Once the source resolves to itself, a context is built exactly when the request and
      the records are well formed and everything required fits the budget. */
  lemma BuiltExactlyWhenRequiredFits(est: Estimator, request: Request, records: seq<Record>)
    requires ValidSource(request.source) && request.budget > 0
    ensures Build(est, request, Resolved(request.source, records)).Built? <==>
              && WellFormed(request, records)
              && FixedTokens(est, request) + RequiredTokens(Items(est, request, records)) <= request.budget
  {
    BuiltWithoutFault(est, request, records);
    WindowChosenExactlyWhen(est, request, records);
    NoRecordFault(request.source, records, |records|);
    var system := Costs(est, SystemMessages(request.instructions));
    if system <= request.budget {
      NoRequiredFault(est, request.required, system, request.budget);
    }
  }

  lemma {:induction false} RequiredNonNegative(items: seq<Item>)
    requires forall item :: item in items ==> item.tokens >= 0
    ensures RequiredTokens(items) >= 0
  {
    if items != [] {
      RequiredNonNegative(items[..|items| - 1]);
    }
  }
}
