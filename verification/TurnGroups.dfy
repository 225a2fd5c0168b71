/** Core/ContextBuilder/source.go: how an Interaction Session's history becomes window
    records, grouped into turns. */
module TurnGroups {
  import opened ContextWindow
  import Ordering

  datatype HistoryMessage = HistoryMessage(
    id: string,
    session: string,
    turn: string,
    sequence: int,
    role: Role,
    content: string)

  datatype Selection = Selection(group: string, omitReason: string)
  datatype Resolution = Resolved(source: Source, records: seq<Record>) | Unresolved(error: Error)
  datatype Fetched = Fetched(history: seq<HistoryMessage>) | NotFetched(error: Error)

  const OMITTED_INCOMPLETE_TURN := "incomplete_turn"

  // ----- what a turn is

  /** Message u opens the turn that message a belongs to: by the recorded turn when there is
      one, and otherwise by standing directly before it. */
  predicate Initiates(history: seq<HistoryMessage>, u: int, a: int) {
    && 0 <= u < a < |history| && history[u].role == UserRole
    && history[u].turn == history[a].turn
    && (history[a].turn == "" ==> u == a - 1)
  }

  predicate HasInitiator(history: seq<HistoryMessage>, a: int) {
    exists u :: 0 <= u < |history| && Initiates(history, u, a)
  }

  /** A user message without a recorded turn whose very next message answers it. */
  predicate Answered(history: seq<HistoryMessage>, u: int)
    requires 0 <= u < |history|
  {
    u + 1 < |history| && history[u + 1].turn == "" && history[u + 1].role == AssistantRole
  }

  /** A response with no turn behind it. Tool records without a recorded turn are not
      looked at. */
  predicate Incomplete(history: seq<HistoryMessage>, i: int)
    requires 0 <= i < |history|
  {
    && (history[i].role == AssistantRole || (history[i].role == ToolRole && history[i].turn != ""))
    && !HasInitiator(history, i)
  }

  function TurnGroup(history: seq<HistoryMessage>, i: int): string
    requires 0 <= i < |history|
  {
    var m := history[i];
    if m.turn != "" then "turn:" + m.turn
    else if m.role == UserRole then (if Answered(history, i) then "turn:" else "message:") + m.id
    else if m.role == AssistantRole && HasInitiator(history, i) then "turn:" + history[i - 1].id
    else ""
  }

  function Selected(history: seq<HistoryMessage>, i: int): Selection
    requires 0 <= i < |history|
  {
    Selection(TurnGroup(history, i), if Incomplete(history, i) then OMITTED_INCOMPLETE_TURN else "")
  }

  // ----- the algorithm

  /** Whether a user message of the turn stands before position n. */
  predicate Opened(history: seq<HistoryMessage>, n: int, turn: string) {
    exists u :: 0 <= u < n <= |history| && history[u].role == UserRole && history[u].turn == turn
  }

  lemma OpenedIsInitiated(history: seq<HistoryMessage>, i: int)
    requires 0 <= i < |history|
    ensures history[i].turn != "" ==> (Opened(history, i, history[i].turn) <==> HasInitiator(history, i))
    ensures history[i].turn == "" ==>
              (HasInitiator(history, i) <==> i > 0 && history[i - 1].turn == "" && history[i - 1].role == UserRole)
  {
    var turn := history[i].turn;
    if turn != "" {
      if Opened(history, i, turn) {
        var u :| 0 <= u < i <= |history| && history[u].role == UserRole && history[u].turn == turn;
        assert Initiates(history, u, i);
      }
    } else if i > 0 && history[i - 1].turn == "" && history[i - 1].role == UserRole {
      assert Initiates(history, i - 1, i);
    }
  }

  lemma OpenedStep(history: seq<HistoryMessage>, n: nat, turn: string)
    requires n < |history|
    ensures Opened(history, n + 1, turn) <==> Opened(history, n, turn) || (history[n].role == UserRole && history[n].turn == turn)
  {
    if history[n].role == UserRole && history[n].turn == turn {
      assert 0 <= n < n + 1 <= |history|;
    }
  }

  /** First pass: messages with a recorded turn. */
  method RecordedTurns(history: seq<HistoryMessage>, result: array<Selection>)
    requires result.Length == |history|
    modifies result
    ensures forall i :: 0 <= i < |history| ==>
              result[i] == if history[i].turn != "" then Selected(history, i) else old(result[i])
  {
    var seenUser: set<string> := {};
    for index := 0 to |history|
      invariant forall turn :: turn in seenUser <==> turn != "" && Opened(history, index, turn)
      invariant forall i :: 0 <= i < |history| ==>
                  result[i] == if i < index && history[i].turn != "" then Selected(history, i) else old(result[i])
    {
      var message := history[index];
      forall turn ensures Opened(history, index + 1, turn) <==>
          Opened(history, index, turn) || (message.role == UserRole && message.turn == turn) {
        OpenedStep(history, index, turn);
      }
      OpenedIsInitiated(history, index);
      if message.turn == "" {
        continue;
      }
      result[index] := Selection("turn:" + message.turn, "");
      if message.role == UserRole {
        seenUser := seenUser + {message.turn};
        continue;
      }
      if (message.role == AssistantRole || message.role == ToolRole) && message.turn !in seenUser {
        result[index] := result[index].(omitReason := OMITTED_INCOMPLETE_TURN);
      }
    }
  }

  /** What the second pass has left at position i once it has reached position n: a user
      message hands its group to the answer ahead of it. */
  function Reached(history: seq<HistoryMessage>, n: int, i: int): Selection
    requires 0 <= i < |history|
  {
    if i < n || history[i].turn != "" then Selected(history, i)
    else if i == n && history[i].role == AssistantRole && HasInitiator(history, i) then Selection(TurnGroup(history, i), "")
    else Selection("", "")
  }

  method InteractionTurnGroups(history: seq<HistoryMessage>) returns (result: array<Selection>)
    ensures fresh(result) && result.Length == |history|
    ensures forall i :: 0 <= i < |history| ==> result[i] == Selected(history, i)
  {
    result := new Selection[|history|](_ => Selection("", ""));
    RecordedTurns(history, result);
    if |history| > 0 {
      OpenedIsInitiated(history, 0);
    }
    var index := 0;
    while index < |history|
      invariant 0 <= index <= |history|
      invariant forall i :: 0 <= i < |history| ==> result[i] == Reached(history, index, i)
    {
      var message := history[index];
      OpenedIsInitiated(history, index);
      if index + 1 < |history| {
        OpenedIsInitiated(history, index + 1);
      }
      if message.turn == "" {
        match message.role {
          case UserRole =>
            var group := "message:" + message.id;
            if index + 1 < |history| && history[index + 1].turn == "" && history[index + 1].role == AssistantRole {
              group := "turn:" + message.id;
              result[index + 1] := result[index + 1].(group := group);
            }
            result[index] := result[index].(group := group);
          case AssistantRole =>
            if result[index].group == "" {
              result[index] := result[index].(omitReason := OMITTED_INCOMPLETE_TURN);
            }
          case _ =>
        }
      }
      index := index + 1;
    }
  }

  function RecordOf(source: Source, history: seq<HistoryMessage>, i: int): Record
    requires 0 <= i < |history|
  {
    var m := history[i];
    var selection := Selected(history, i);
    Record(m.id, source, m.sequence, m.role, m.content, "", m.role == SystemRole, selection.group, selection.omitReason)
  }

  function Records(source: Source, history: seq<HistoryMessage>): seq<Record> {
    seq(|history|, i requires 0 <= i < |history| => RecordOf(source, history, i))
  }

  function Resolve(source: Source, fetched: Fetched): Resolution {
    if source.kind != InteractionSession then Unresolved(SourceUnsupported)
    else if Ordering.Blank(source.id) then Unresolved(InvalidSource)
    else if fetched.NotFetched? then Unresolved(fetched.error)
    else if exists m :: m in fetched.history && m.session != source.id then Unresolved(SourceIsolation)
    else Resolved(source, Records(source, fetched.history))
  }

  method ResolveSession(source: Source, fetched: Fetched) returns (resolution: Resolution)
    ensures resolution == Resolve(source, fetched)
  {
    if source.kind != InteractionSession { return Unresolved(SourceUnsupported); }
    if Ordering.Blank(source.id) { return Unresolved(InvalidSource); }
    if fetched.NotFetched? { return Unresolved(fetched.error); }
    var history := fetched.history;
    var groups := InteractionTurnGroups(history);
    var records: seq<Record> := [];
    for index := 0 to |history|
      invariant forall k :: 0 <= k < index ==> history[k].session == source.id
      invariant records == Records(source, history)[..index]
    {
      var m := history[index];
      if m.session != source.id {
        assert m in history;
        return Unresolved(SourceIsolation);
      }
      assert records + [Records(source, history)[index]] == Records(source, history)[..index + 1];
      records := records + [Record(m.id, source, m.sequence, m.role, m.content, "", m.role == SystemRole,
                                   groups[index].group, groups[index].omitReason)];
    }
    return Resolved(source, records);
  }

  // ----- what the grouping guarantees

  /** A response is in the group of the user message that opened its turn. */
  lemma TurnSharesGroup(history: seq<HistoryMessage>, u: int, a: int)
    requires Initiates(history, u, a)
    requires history[a].role == AssistantRole || history[a].turn != ""
    ensures TurnGroup(history, u) == TurnGroup(history, a) != ""
    ensures !Incomplete(history, u)
  {
    OpenedIsInitiated(history, a);
    if history[a].turn == "" {
      assert Answered(history, u);
    }
  }

  /** Exactly which responses stay visible to the model. The comment on the grouping
      promises that no response without an initiating user does; a tool record without a
      recorded turn is the one exception. */
  lemma VisibleResponses(history: seq<HistoryMessage>, i: int)
    requires 0 <= i < |history|
    requires history[i].role == AssistantRole || history[i].role == ToolRole
    ensures Selected(history, i).omitReason == "" <==>
              HasInitiator(history, i) || (history[i].role == ToolRole && history[i].turn == "")
  {
    assert OMITTED_INCOMPLETE_TURN[0] == 'i';
  }

  /** The exception is real. */
  lemma LoneToolRecordIsVisible()
    ensures var history := [HistoryMessage("m", "s", "", 0, ToolRole, "output")];
            Selected(history, 0) == Selection("", "") && !HasInitiator(history, 0)
  {
  }
}
