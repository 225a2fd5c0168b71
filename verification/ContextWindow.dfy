/** Core/ContextBuilder/window.go: greedy, group-atomic, newest-first selection of history
    under a token budget. */
module ContextWindow {
  import opened Common

  datatype Role = SystemRole | UserRole | AssistantRole | ToolRole | OtherRole(name: string)

  datatype SourceKind = InteractionSession | CognitionRun | OtherKind(name: string)
  datatype Source = Source(kind: SourceKind, id: string)

  datatype Record = Record(
    id: string,
    source: Source,
    sequence: int,
    role: Role,
    content: string,
    provenance: string,
    required: bool,
    group: string,
    omitReason: string)

  datatype Item = Item(record: Record, tokens: int, required: bool)
  datatype Omitted = Omitted(id: string, sequence: int, tokens: int, reason: string, provenance: string)

  datatype Window = Window(
    items: seq<Item>,
    omitted: seq<Omitted>,
    tokens: int,
    start: Option<int>,
    end: Option<int>)

  datatype Error =
    | InvalidRequest
    | RequiredContextExceedsBudget
    | InvalidSource
    | SourceIsolation
    | SourceUnsupported
    | Unavailable(cause: string)

  datatype Outcome = Selected(window: Window) | Failed(error: Error)

  const OMITTED_BUDGET := "token_budget"

  // ----- what the policy chooses

  /** Competes for the budget: not required, and not withheld for a reason. */
  predicate Selectable(item: Item) {
    !item.required && item.record.omitReason == ""
  }

  /** Records without a group form one of their own. */
  function GroupKey(item: Item): string {
    if item.record.group == "" then "record:" + item.record.id else "group:" + item.record.group
  }

  predicate Member(item: Item, key: string) {
    Selectable(item) && GroupKey(item) == key
  }

  predicate Malformed(item: Item) {
    item.tokens <= 0 || (item.required && item.record.omitReason != "")
  }

  function RequiredTokens(items: seq<Item>): int {
    if items == [] then 0
    else RequiredTokens(items[..|items| - 1]) + if items[|items| - 1].required then items[|items| - 1].tokens else 0
  }

  function GroupTokens(items: seq<Item>, key: string): int {
    if items == [] then 0
    else GroupTokens(items[..|items| - 1], key) + if Member(items[|items| - 1], key) then items[|items| - 1].tokens else 0
  }

  function RunTokens(items: seq<Item>, keys: seq<string>): int {
    if keys == [] then 0
    else RunTokens(items, keys[..|keys| - 1]) + GroupTokens(items, keys[|keys| - 1])
  }

  /** The groups, newest first: each where its last member stands. */
  function NewestGroups(items: seq<Item>): seq<string> {
    if items == [] then []
    else
      var rest := NewestGroups(items[1..]);
      if Selectable(items[0]) && GroupKey(items[0]) !in rest then rest + [GroupKey(items[0])] else rest
  }

  /** How many leading groups fit in the budget, stopping at the first that does not. */
  function FittingFrom(items: seq<Item>, keys: seq<string>, n: nat, budget: int): (m: nat)
    requires n <= |keys|
    ensures n <= m <= |keys|
    decreases |keys| - n
  {
    if n == |keys| || GroupTokens(items, keys[n]) > budget then n
    else FittingFrom(items, keys, n + 1, budget - GroupTokens(items, keys[n]))
  }

  /** The groups of the longest newest-first run that fits. */
  function Chosen(items: seq<Item>, budget: int): seq<string> {
    NewestGroups(items)[..FittingFrom(items, NewestGroups(items), 0, budget)]
  }

  predicate Kept(item: Item, chosen: seq<string>) {
    item.required || (Selectable(item) && GroupKey(item) in chosen)
  }

  function Omission(item: Item): Omitted {
    Omitted(item.record.id, item.record.sequence, item.tokens,
            if item.record.omitReason == "" then OMITTED_BUDGET else item.record.omitReason, item.record.provenance)
  }

  /** Kept items and omissions, each in their original order. */
  function Assemble(items: seq<Item>, chosen: seq<string>): Window {
    if items == [] then Window([], [], 0, None, None)
    else
      var w := Assemble(items[..|items| - 1], chosen);
      var item := items[|items| - 1];
      if !Kept(item, chosen) then w.(omitted := w.omitted + [Omission(item)])
      else if item.required then w.(items := w.items + [item], tokens := w.tokens + item.tokens)
      else w.(items := w.items + [item], tokens := w.tokens + item.tokens,
              start := if w.start.None? then Some(item.record.sequence) else w.start,
              end := Some(item.record.sequence))
  }

  function Choose(items: seq<Item>, budget: int): Outcome {
    if budget < 0 then Failed(RequiredContextExceedsBudget)
    else if exists item :: item in items && Malformed(item) then Failed(InvalidRequest)
    else if RequiredTokens(items) > budget then Failed(RequiredContextExceedsBudget)
    else Selected(Assemble(items, Chosen(items, budget - RequiredTokens(items))))
  }

  // ----- the newest-first order is what it says

  predicate LastMember(items: seq<Item>, key: string, i: int) {
    0 <= i < |items| && Member(items[i], key) && forall k :: i < k < |items| ==> !Member(items[k], key)
  }

  lemma {:induction false} NewestGroupsAreTheGroups(items: seq<Item>)
    ensures forall key :: key in NewestGroups(items) <==> exists i :: LastMember(items, key, i)
    ensures NoRepeats(NewestGroups(items))
  {
    if items != [] {
      var rest := items[1..];
      NewestGroupsAreTheGroups(rest);
      forall key ensures key in NewestGroups(items) <==> exists i :: LastMember(items, key, i) {
        if i :| LastMember(rest, key, i) {
          assert LastMember(items, key, i + 1);
        } else if Member(items[0], key) {
          assert forall k :: 0 < k < |items| ==> items[k] == rest[k - 1];
          if k :| 0 < k < |items| && Member(items[k], key) {
            var i := LastOf(rest, key, k - 1);
          }
          assert LastMember(items, key, 0);
        } else if i :| LastMember(items, key, i) {
          assert LastMember(rest, key, i - 1);
        }
      }
    }
  }

  lemma LastOf(items: seq<Item>, key: string, k: nat) returns (i: nat)
    requires k < |items| && Member(items[k], key)
    ensures LastMember(items, key, i)
  {
    i := |items| - 1;
    while !Member(items[i], key)
      invariant k <= i < |items| && forall j :: i < j < |items| ==> !Member(items[j], key)
      decreases i
    {
      i := i - 1;
    }
  }

  lemma {:induction false} NewestGroupsByLastMember(items: seq<Item>, a: nat, b: nat, i: int, j: int)
    requires a < b < |NewestGroups(items)|
    requires LastMember(items, NewestGroups(items)[a], i) && LastMember(items, NewestGroups(items)[b], j)
    ensures i > j
  {
    var rest := items[1..];
    NewestGroupsAreTheGroups(rest);
    var ka, kb := NewestGroups(items)[a], NewestGroups(items)[b];
    assert NewestGroups(rest)[a] == ka && ka in NewestGroups(rest);
    var i' :| LastMember(rest, ka, i');
    assert LastMember(items, ka, i' + 1);
    assert i == i' + 1;
    if b < |NewestGroups(rest)| {
      assert NewestGroups(rest)[b] == kb && kb in NewestGroups(rest);
      var j' :| LastMember(rest, kb, j');
      assert LastMember(items, kb, j' + 1);
      NewestGroupsByLastMember(rest, a, b, i', j');
    } else {
      assert kb == GroupKey(items[0]);
      if j > 0 {
        assert LastMember(rest, kb, j - 1);
      }
    }
  }

  // ----- the run is the longest that fits

  lemma {:induction false} FittingIsLongest(items: seq<Item>, keys: seq<string>, n: nat, budget: int, total: int)
    requires n <= |keys| && 0 <= budget && total == budget + RunTokens(items, keys[..n])
    ensures var m := FittingFrom(items, keys, n, budget);
            && RunTokens(items, keys[..m]) <= total
            && (m < |keys| ==> RunTokens(items, keys[..m + 1]) > total)
    decreases |keys| - n
  {
    if n < |keys| {
      assert keys[..n + 1][..n] == keys[..n];
      if GroupTokens(items, keys[n]) <= budget {
        FittingIsLongest(items, keys, n + 1, budget - GroupTokens(items, keys[n]), total);
      }
    }
  }

  lemma {:induction false} RunTokensSnoc(items: seq<Item>, item: Item, keys: seq<string>)
    requires NoRepeats(keys)
    ensures RunTokens(items + [item], keys) ==
            RunTokens(items, keys) + if Selectable(item) && GroupKey(item) in keys then item.tokens else 0
  {
    assert (items + [item])[..|items|] == items;
    if keys != [] {
      var init, key := keys[..|keys| - 1], keys[|keys| - 1];
      RunTokensSnoc(items, item, init);
      assert keys == init + [key];
      assert forall k :: k in keys <==> k in init || k == key;
      assert key !in init;
    }
  }

  lemma {:induction false} RunTokensEmpty(keys: seq<string>)
    ensures RunTokens([], keys) == 0
  {
    if keys != [] {
      RunTokensEmpty(keys[..|keys| - 1]);
    }
  }

  lemma {:induction false} AssembleTokens(items: seq<Item>, chosen: seq<string>)
    requires NoRepeats(chosen)
    ensures Assemble(items, chosen).tokens == RequiredTokens(items) + RunTokens(items, chosen)
  {
    if items == [] {
      RunTokensEmpty(chosen);
    } else {
      var init, item := items[..|items| - 1], items[|items| - 1];
      assert items == init + [item];
      AssembleTokens(init, chosen);
      RunTokensSnoc(init, item, chosen);
    }
  }

  lemma {:induction false} GroupTokensNonNegative(items: seq<Item>, key: string)
    requires forall item :: item in items ==> item.tokens > 0
    ensures GroupTokens(items, key) >= 0
  {
    if items != [] {
      GroupTokensNonNegative(items[..|items| - 1], key);
    }
  }

  lemma {:induction false} RunTokensGrow(items: seq<Item>, keys: seq<string>, n: nat, m: nat)
    requires n <= m <= |keys| && forall item :: item in items ==> item.tokens > 0
    ensures RunTokens(items, keys[..n]) <= RunTokens(items, keys[..m])
  {
    if n < m {
      RunTokensGrow(items, keys, n, m - 1);
      assert keys[..m][..m - 1] == keys[..m - 1];
      GroupTokensNonNegative(items, keys[m - 1]);
    }
  }

  lemma ChosenIsLongest(items: seq<Item>, left: int)
    requires left >= 0
    ensures var groups, chosen := NewestGroups(items), Chosen(items, left);
            && chosen == groups[..|chosen|] && NoRepeats(chosen)
            && RunTokens(items, chosen) <= left
            && (|chosen| < |groups| ==> RunTokens(items, groups[..|chosen| + 1]) > left)
  {
    NewestGroupsAreTheGroups(items);
    RunIsLongest(items, NewestGroups(items), left);
  }

  lemma RunIsLongest(items: seq<Item>, groups: seq<string>, left: int)
    requires left >= 0
    ensures var m := FittingFrom(items, groups, 0, left);
            && RunTokens(items, groups[..m]) <= left
            && (m < |groups| ==> RunTokens(items, groups[..m + 1]) > left)
  {
    assert groups[..0] == [];
    FittingIsLongest(items, groups, 0, left, left);
  }

  lemma LongerRunsExceed(items: seq<Item>, groups: seq<string>, n: nat, left: int)
    requires n <= |groups| && forall item :: item in items ==> item.tokens > 0
    requires n < |groups| ==> RunTokens(items, groups[..n + 1]) > left
    ensures forall m :: n < m <= |groups| ==> RunTokens(items, groups[..m]) > left
  {
    forall m | n < m <= |groups| ensures RunTokens(items, groups[..m]) > left {
      RunTokensGrow(items, groups, n + 1, m);
    }
  }

  /** The policy keeps every required item and exactly the longest newest-first run of
      whole groups that fits what the required items leave: the run fits, no longer one
      does, and the reported tokens are those of what is kept. */
  lemma KeepsLongestFittingRun(items: seq<Item>, budget: int)
    requires Choose(items, budget).Selected?
    ensures var groups := NewestGroups(items);
            var chosen := Chosen(items, budget - RequiredTokens(items));
            var w := Choose(items, budget).window;
            && chosen == groups[..|chosen|]
            && w == Assemble(items, chosen)
            && w.tokens == RequiredTokens(items) + RunTokens(items, chosen) <= budget
            && (forall m :: |chosen| < m <= |groups| ==> RequiredTokens(items) + RunTokens(items, groups[..m]) > budget)
  {
    var left := budget - RequiredTokens(items);
    ChosenIsLongest(items, left);
    LongerRunsExceed(items, NewestGroups(items), |Chosen(items, left)|, left);
    AssembleTokens(items, Chosen(items, left));
  }

  predicate Rising(positions: seq<nat>) {
    forall j, k :: 0 <= j < k < |positions| ==> positions[j] < positions[k]
  }

  /** Positions below n, split by whether the item there is kept. */
  predicate Split(items: seq<Item>, chosen: seq<string>, kept: seq<nat>, dropped: seq<nat>) {
    && Rising(kept) && Rising(dropped)
    && (forall k :: 0 <= k < |kept| ==> kept[k] < |items| && Kept(items[kept[k]], chosen))
    && (forall k :: 0 <= k < |dropped| ==> dropped[k] < |items| && !Kept(items[dropped[k]], chosen))
    && |kept| + |dropped| == |items|
  }

  /** Kept and omitted items partition the input, each in the original order; together with
      the definition of Kept, the selectable members of a group are all in or all out. */
  lemma {:induction false} AssemblePartitions(items: seq<Item>, chosen: seq<string>) returns (kept: seq<nat>, dropped: seq<nat>)
    ensures var w := Assemble(items, chosen);
            && Split(items, chosen, kept, dropped) && |w.items| == |kept| && |w.omitted| == |dropped|
            && (forall k :: 0 <= k < |kept| ==> w.items[k] == items[kept[k]])
            && (forall k :: 0 <= k < |dropped| ==> w.omitted[k] == Omission(items[dropped[k]]))
  {
    if items == [] { return [], []; }
    var n := |items| - 1;
    kept, dropped := AssemblePartitions(items[..n], chosen);
    if Kept(items[n], chosen) {
      kept := kept + [n];
    } else {
      dropped := dropped + [n];
    }
  }

  // ----- in terms of the records

  /** Two records compete together exactly when they name the same group, or name none and
      are the same record. */
  lemma GroupKeysIdentify(a: Item, b: Item)
    ensures GroupKey(a) == GroupKey(b) <==>
              a.record.group == b.record.group && (a.record.group == "" ==> a.record.id == b.record.id)
  {
    var ka, kb := GroupKey(a), GroupKey(b);
    assert ka[0] == 'r' <==> a.record.group == "";
    assert kb[0] == 'r' <==> b.record.group == "";
    assert "group:" + a.record.group != "group:" + b.record.group || a.record.group == b.record.group by {
      assert ("group:" + a.record.group)[6..] == a.record.group && ("group:" + b.record.group)[6..] == b.record.group;
    }
    assert "record:" + a.record.id != "record:" + b.record.id || a.record.id == b.record.id by {
      assert ("record:" + a.record.id)[7..] == a.record.id && ("record:" + b.record.id)[7..] == b.record.id;
    }
  }

  /** Whatever groups are chosen: required records are kept, withheld ones are not, and of the
      others either all that share a named group are kept or none. */
  lemma KeptByTheRecord(a: Item, b: Item, chosen: seq<string>)
    ensures a.required ==> Kept(a, chosen)
    ensures !a.required && a.record.omitReason != "" ==> !Kept(a, chosen)
    ensures !a.required && !b.required && a.record.omitReason == b.record.omitReason == "" && a.record.group == b.record.group != "" ==>
              (Kept(a, chosen) <==> Kept(b, chosen))
  {
    GroupKeysIdentify(a, b);
  }

  /** An omission names the record and why: what it was withheld for, or the budget. */
  lemma OmissionTellsWhy(item: Item)
    ensures var o := Omission(item);
            && o.id == item.record.id && o.sequence == item.record.sequence && o.tokens == item.tokens
            && o.provenance == item.record.provenance && (item.record.omitReason != "" ==> o.reason == item.record.omitReason)
            && (item.record.omitReason == "" ==> o.reason == "token_budget")
  {
  }

  /** When and why nothing is selected. */
  lemma FailsExactlyWhen(items: seq<Item>, budget: int)
    ensures var broken := exists k :: 0 <= k < |items| && (items[k].tokens <= 0 || (items[k].required && items[k].record.omitReason != ""));
            && (Choose(items, budget) == Failed(InvalidRequest) <==> budget >= 0 && broken)
            && (Choose(items, budget) == Failed(RequiredContextExceedsBudget) <==>
                  budget < 0 || (!broken && RequiredTokens(items) > budget))
            && (Choose(items, budget).Selected? <==> budget >= 0 && !broken && RequiredTokens(items) <= budget)
  {
    if k :| 0 <= k < |items| && (items[k].tokens <= 0 || (items[k].required && items[k].record.omitReason != "")) {
      assert items[k] in items && Malformed(items[k]);
    }
  }

  // ----- the algorithm

  /** The positions of a group's members among the first n items. */
  function MemberIndexes(items: seq<Item>, n: nat, key: string): seq<nat>
    requires n <= |items|
  {
    if n == 0 then []
    else MemberIndexes(items, n - 1, key) + if Member(items[n - 1], key) then [n - 1] else []
  }

  lemma {:induction false} MemberIndexesAre(items: seq<Item>, n: nat, key: string)
    requires n <= |items|
    ensures forall i :: i in MemberIndexes(items, n, key) <==> 0 <= i < n && Member(items[i], key)
  {
    if n > 0 {
      MemberIndexesAre(items, n - 1, key);
    }
  }

  datatype Group = Group(tokens: int, indexes: seq<nat>)

  ghost predicate Grouped(groups: map<string, Group>, items: seq<Item>, n: nat)
    requires n <= |items|
  {
    && (forall i :: 0 <= i < n && Selectable(items[i]) ==> GroupKey(items[i]) in groups)
    && (forall key :: key in groups ==> groups[key] == Group(GroupTokens(items[..n], key), MemberIndexes(items, n, key)))
    && (forall key :: key !in groups ==> GroupTokens(items[..n], key) == 0 && MemberIndexes(items, n, key) == [])
  }

  /** Adds an item to its group, which it may be the first of. */
  function Joined(groups: map<string, Group>, key: string, tokens: int, index: nat): map<string, Group> {
    var g := if key in groups then groups[key] else Group(0, []);
    groups[key := Group(g.tokens + tokens, g.indexes + [index])]
  }

  lemma GroupTokensStep(items: seq<Item>, n: nat, key: string)
    requires n < |items|
    ensures GroupTokens(items[..n + 1], key) == GroupTokens(items[..n], key) + if Member(items[n], key) then items[n].tokens else 0
  {
    assert items[..n + 1][..n] == items[..n] && items[..n + 1][n] == items[n];
  }

  lemma GroupedStep(groups: map<string, Group>, items: seq<Item>, n: nat)
    requires n < |items| && Grouped(groups, items, n)
    ensures !Selectable(items[n]) ==> Grouped(groups, items, n + 1)
    ensures Selectable(items[n]) ==> Grouped(Joined(groups, GroupKey(items[n]), items[n].tokens, n), items, n + 1)
  {
    forall key
      ensures GroupTokens(items[..n + 1], key) == GroupTokens(items[..n], key) + if Member(items[n], key) then items[n].tokens else 0
    {
      GroupTokensStep(items, n, key);
    }
  }

  method CollectGroups(items: seq<Item>) returns (groupKeys: array<string>, groups: map<string, Group>)
    ensures fresh(groupKeys) && groupKeys.Length == |items|
    ensures forall i :: 0 <= i < |items| && Selectable(items[i]) ==> groupKeys[i] == GroupKey(items[i])
    ensures Grouped(groups, items, |items|)
  {
    groupKeys := new string[|items|](_ => "");
    groups := map[];
    for index := 0 to |items|
      invariant forall i :: 0 <= i < index && Selectable(items[i]) ==> groupKeys[i] == GroupKey(items[i])
      invariant Grouped(groups, items, index)
    {
      var item := items[index];
      GroupedStep(groups, items, index);
      if !Selectable(item) {
        continue;
      }
      var group := GroupKey(item);
      groupKeys[index] := group;
      groups := Joined(groups, group, item.tokens, index);
    }
  }

  /** Scanning from the end meets the groups newest first. */
  lemma {:induction false} ScanIsPrefix(items: seq<Item>, n: nat)
    requires n <= |items|
    ensures var met, groups := NewestGroups(items[n..]), NewestGroups(items);
            |met| <= |groups| && groups[..|met|] == met
  {
    if n > 0 {
      assert items[1..][n - 1..] == items[n..];
      ScanIsPrefix(items[1..], n - 1);
      var met, rest, groups := NewestGroups(items[n..]), NewestGroups(items[1..]), NewestGroups(items);
      assert groups[..|rest|] == rest;
      assert groups[..|met|] == rest[..|met|];
    } else {
      assert items[0..] == items;
    }
  }

  /** The groups met so far are the first of the run, and all of them fit. */
  ghost predicate Tracks(items: seq<Item>, groups: seq<string>, met: seq<string>, seen: set<string>, budget: int, remaining: int) {
    && (forall key :: key in seen <==> key in met)
    && |met| <= |groups| && groups[..|met|] == met
    && FittingFrom(items, groups, 0, budget) == FittingFrom(items, groups, |met|, remaining)
  }

  ghost predicate Scanned(items: seq<Item>, n: nat, seen: set<string>, budget: int, remaining: int)
    requires n <= |items|
  {
    Tracks(items, NewestGroups(items), NewestGroups(items[n..]), seen, budget, remaining)
  }

  /** One step of the scan: nothing new, the end of the run, or one more group in it. */
  lemma ScanStep(items: seq<Item>, n: nat, seen: set<string>, budget: int, remaining: int)
    requires 0 < n <= |items| && Scanned(items, n, seen, budget, remaining)
    ensures var item := items[n - 1];
            var key := GroupKey(item);
            if !Selectable(item) || key in seen then
              Scanned(items, n - 1, seen, budget, remaining) && NewestGroups(items[n - 1..]) == NewestGroups(items[n..])
            else if GroupTokens(items, key) > remaining then
              Chosen(items, budget) == NewestGroups(items[n..])
            else
              && Scanned(items, n - 1, seen + {key}, budget, remaining - GroupTokens(items, key))
              && NewestGroups(items[n - 1..]) == NewestGroups(items[n..]) + [key]
  {
    ScanMeets(items, n);
    ScanIsPrefix(items, n - 1);
    if Selectable(items[n - 1]) && GroupKey(items[n - 1]) !in seen {
      TrackStep(items, NewestGroups(items), NewestGroups(items[n..]), NewestGroups(items[n - 1..]),
                GroupKey(items[n - 1]), seen, budget, remaining);
    }
  }

  lemma TrackStep(items: seq<Item>, groups: seq<string>, met: seq<string>, next: seq<string>, key: string,
                  seen: set<string>, budget: int, remaining: int)
    requires Tracks(items, groups, met, seen, budget, remaining) && next == met + [key]
    requires |next| <= |groups| && groups[..|next|] == next
    ensures if GroupTokens(items, key) > remaining then
              groups[..FittingFrom(items, groups, 0, budget)] == met
            else
              Tracks(items, groups, next, seen + {key}, budget, remaining - GroupTokens(items, key))
  {
    assert groups[|met|] == next[|met|] == key;
    FitStep(items, groups, met, key, budget, remaining);
  }

  lemma FitStep(items: seq<Item>, groups: seq<string>, met: seq<string>, key: string, budget: int, remaining: int)
    requires |met| < |groups| && groups[..|met|] == met && groups[|met|] == key
    requires FittingFrom(items, groups, 0, budget) == FittingFrom(items, groups, |met|, remaining)
    ensures if GroupTokens(items, key) > remaining then
              groups[..FittingFrom(items, groups, 0, budget)] == met
            else
              FittingFrom(items, groups, 0, budget) == FittingFrom(items, groups, |met| + 1, remaining - GroupTokens(items, key))
  {
  }

  lemma ScanMeets(items: seq<Item>, n: nat)
    requires 0 < n <= |items|
    ensures var item, met := items[n - 1], NewestGroups(items[n..]);
            NewestGroups(items[n - 1..]) == if Selectable(item) && GroupKey(item) !in met then met + [GroupKey(item)] else met
  {
    assert items[n - 1..][1..] == items[n..];
  }

  /** The newest-first pass: marks whole groups while they fit, and stops at the first
      that does not. */
  method PickGroups(items: seq<Item>, groupKeys: array<string>, groups: map<string, Group>, budget: int)
    returns (selected: array<bool>)
    requires groupKeys.Length == |items|
    requires forall i :: 0 <= i < |items| && Selectable(items[i]) ==> groupKeys[i] == GroupKey(items[i])
    requires Grouped(groups, items, |items|)
    ensures fresh(selected) && selected.Length == |items|
    ensures forall i :: 0 <= i < |items| ==>
              (selected[i] <==> Selectable(items[i]) && GroupKey(items[i]) in Chosen(items, budget))
  {
    selected := new bool[|items|](_ => false);
    var seen: set<string> := {};
    var remaining := budget;
    var index := |items|;
    assert items[|items|..] == [] && items[..|items|] == items;
    while index > 0
      invariant 0 <= index <= |items| && Scanned(items, index, seen, budget, remaining)
      invariant forall i :: 0 <= i < |items| ==>
                  (selected[i] <==> Selectable(items[i]) && GroupKey(items[i]) in NewestGroups(items[index..]))
    {
      ScanStep(items, index, seen, budget, remaining);
      var item := items[index - 1];
      if !Selectable(item) || groupKeys[index - 1] in seen {
        index := index - 1;
        continue;
      }
      var key := groupKeys[index - 1];
      var selection := groups[key];
      if selection.tokens > remaining {
        return;
      }
      Mark(items, selected, selection.indexes, key);
      seen := seen + {key};
      remaining := remaining - selection.tokens;
      index := index - 1;
    }
    assert items[0..] == items;
  }

  method Mark(items: seq<Item>, selected: array<bool>, indexes: seq<nat>, key: string)
    requires selected.Length == |items| && indexes == MemberIndexes(items, |items|, key)
    modifies selected
    ensures forall i :: 0 <= i < |items| ==> (selected[i] <==> old(selected[i]) || Member(items[i], key))
  {
    MemberIndexesAre(items, |items|, key);
    for k := 0 to |indexes|
      invariant forall i :: 0 <= i < |items| ==> (selected[i] <==> old(selected[i]) || i in indexes[..k])
    {
      assert indexes[..k + 1] == indexes[..k] + [indexes[k]];
      assert indexes[k] in indexes;
      selected[indexes[k]] := true;
    }
    assert indexes[..|indexes|] == indexes;
  }

  /** Splits the items by their marks, in order. */
  method Emit(items: seq<Item>, selected: array<bool>, requiredTokens: int, ghost chosen: seq<string>) returns (w: Window)
    requires selected.Length == |items| && requiredTokens == RequiredTokens(items)
    requires forall i :: 0 <= i < |items| ==> (selected[i] <==> Selectable(items[i]) && GroupKey(items[i]) in chosen)
    ensures w == Assemble(items, chosen)
  {
    w := Window([], [], requiredTokens, None, None);
    for index := 0 to |items|
      invariant w == Assemble(items[..index], chosen).(tokens :=
                       Assemble(items[..index], chosen).tokens + requiredTokens - RequiredTokens(items[..index]))
    {
      var item := items[index];
      assert items[..index + 1][..index] == items[..index];
      if item.required || selected[index] {
        w := w.(items := w.items + [item]);
        if !item.required {
          w := w.(start := if w.start.None? then Some(item.record.sequence) else w.start,
                  end := Some(item.record.sequence), tokens := w.tokens + item.tokens);
        }
        continue;
      }
      w := w.(omitted := w.omitted + [Omission(item)]);
    }
    assert items[..|items|] == items;
  }

  method Select(items: seq<Item>, budget: int) returns (outcome: Outcome)
    ensures outcome == Choose(items, budget)
  {
    if budget < 0 { return Failed(RequiredContextExceedsBudget); }
    var requiredTokens := 0;
    for i := 0 to |items|
      invariant forall k :: 0 <= k < i ==> !Malformed(items[k])
      invariant requiredTokens == RequiredTokens(items[..i])
    {
      assert items[..i + 1][..i] == items[..i] && items[i] in items;
      if items[i].tokens <= 0 { return Failed(InvalidRequest); }
      if items[i].required {
        if items[i].record.omitReason != "" { return Failed(InvalidRequest); }
        requiredTokens := requiredTokens + items[i].tokens;
      }
    }
    assert items[..|items|] == items;
    if requiredTokens > budget { return Failed(RequiredContextExceedsBudget); }
    var groupKeys, groups := CollectGroups(items);
    var selected := PickGroups(items, groupKeys, groups, budget - requiredTokens);
    var window := Emit(items, selected, requiredTokens, Chosen(items, budget - requiredTokens));
    return Selected(window);
  }
}
