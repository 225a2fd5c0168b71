/** Core/CognitiveExecution/executor.go, BindToolContext: attaches tool exchanges to the
    messages that already show them, by first fit on the formatted text. */
module ToolBinding {
  import opened Common

  datatype Message = Message(
    role: string,
    content: string,
    provenance: string,
    tools: Option<seq<string>>,
    exchange: Option<nat>)   // whose call and result the message points to

  /** `formats` are the exchanges as FormatToolExchange renders them, None where it fails. */
  type Formats = seq<Option<string>>

  datatype Fit = At(index: nat) | Unformattable | Missing
  datatype Matching = Matching(indexes: seq<nat>, failure: Option<Fit>)

  // ----- first fit

  predicate IsUsed(indexes: seq<nat>, i: nat) {
    i in indexes
  }

  function FirstFit(formats: Formats, indexes: seq<nat>, content: string, from: nat): (fit: Fit)
    requires from <= |formats|
    ensures fit.At? ==> from <= fit.index < |formats|
    decreases |formats| - from
  {
    if from == |formats| then Missing
    else if IsUsed(indexes, from) then FirstFit(formats, indexes, content, from + 1)
    else if formats[from].None? then Unformattable
    else if formats[from].value == content then At(from)
    else FirstFit(formats, indexes, content, from + 1)
  }

  /** Each content in turn takes the first fit left; the first that finds none ends it. */
  function Match(formats: Formats, contents: seq<string>): Matching {
    if contents == [] then Matching([], None)
    else
      var m := Match(formats, contents[..|contents| - 1]);
      if m.failure.Some? then m
      else
        var fit := FirstFit(formats, m.indexes, contents[|contents| - 1], 0);
        if fit.At? then Matching(m.indexes + [fit.index], None) else Matching(m.indexes, Some(fit))
  }

  /** How many exchanges come before the first that cannot be formatted. */
  function Formattable(formats: Formats): (n: nat)
    ensures n <= |formats|
    ensures forall i :: 0 <= i < n ==> formats[i].Some?
    ensures n < |formats| ==> formats[n].None?
  {
    if formats == [] || formats[0].None? then 0 else 1 + Formattable(formats[1..])
  }

  function Texts(formats: Formats, n: nat): seq<string>
    requires n <= Formattable(formats)
  {
    seq(n, i requires 0 <= i < n => formats[i].value)
  }

  // ----- what first fit finds

  lemma {:induction false} FirstFitFinds(formats: Formats, indexes: seq<nat>, content: string, from: nat)
    requires from <= Formattable(formats)
    requires forall i :: i in indexes ==> i < Formattable(formats)
    ensures var n := Formattable(formats);
            match FirstFit(formats, indexes, content, from)
            case At(i) =>
              && from <= i < n && i !in indexes && formats[i].value == content
              && (forall k :: from <= k < i ==> k in indexes || formats[k].value != content)
            case Unformattable => n < |formats| && forall k :: from <= k < n ==> k in indexes || formats[k].value != content
            case Missing => n == |formats| && forall k :: from <= k < n ==> k in indexes || formats[k].value != content
    decreases |formats| - from
  {
    var n := Formattable(formats);
    if from < n && (from in indexes || formats[from].value != content) {
      FirstFitFinds(formats, indexes, content, from + 1);
    }
  }

  /** The bindings made: each content its own exchange with that very text. */
  lemma {:induction false} MatchIsInjective(formats: Formats, contents: seq<string>)
    ensures var m := Match(formats, contents);
            && |m.indexes| <= |contents| && (m.failure.None? ==> |m.indexes| == |contents|)
            && (forall k :: 0 <= k < |m.indexes| ==>
                  m.indexes[k] < Formattable(formats) && formats[m.indexes[k]] == Some(contents[k]))
            && NoRepeats(m.indexes)
  {
    if contents != [] {
      var init := contents[..|contents| - 1];
      MatchIsInjective(formats, init);
      var m := Match(formats, init);
      FirstFitFinds(formats, m.indexes, contents[|contents| - 1], 0);
    }
  }

  // ----- when everything finds a place

  function Count(texts: seq<string>, text: string): nat {
    if texts == [] then 0
    else Count(texts[..|texts| - 1], text) + if texts[|texts| - 1] == text then 1 else 0
  }

  lemma {:induction false} CountIsMultiplicity(texts: seq<string>, text: string)
    ensures Count(texts, text) == multiset(texts)[text]
  {
    if texts != [] {
      var init, last := texts[..|texts| - 1], texts[|texts| - 1];
      CountIsMultiplicity(init, text);
      assert texts == init + [last];
    }
  }

  ghost predicate Covers(b: seq<string>, a: seq<string>) {
    forall text :: Count(a, text) <= Count(b, text)
  }

  lemma ContainedByCount(a: seq<string>, b: seq<string>)
    ensures multiset(a) <= multiset(b) <==> Covers(b, a)
  {
    forall text ensures Count(a, text) == multiset(a)[text] && Count(b, text) == multiset(b)[text] {
      CountIsMultiplicity(a, text);
      CountIsMultiplicity(b, text);
    }
  }

  /** How often a text is left among the first n exchanges. */
  function Left(formats: Formats, n: nat, indexes: seq<nat>, text: string): nat
    requires n <= Formattable(formats)
  {
    if n == 0 then 0
    else Left(formats, n - 1, indexes, text) + if !IsUsed(indexes, n - 1) && formats[n - 1].value == text then 1 else 0
  }

  lemma {:induction false} LeftAll(formats: Formats, n: nat, text: string)
    requires n <= Formattable(formats)
    ensures Left(formats, n, [], text) == Count(Texts(formats, n), text)
  {
    if n > 0 {
      LeftAll(formats, n - 1, text);
      assert Texts(formats, n)[..n - 1] == Texts(formats, n - 1);
    }
  }

  lemma {:induction false} LeftTake(formats: Formats, n: nat, indexes: seq<nat>, i: nat, text: string)
    requires n <= Formattable(formats) && i < Formattable(formats) && !IsUsed(indexes, i)
    ensures Left(formats, n, indexes, text) ==
            Left(formats, n, indexes + [i], text) + if i < n && formats[i].value == text then 1 else 0
  {
    if n > 0 {
      LeftTake(formats, n - 1, indexes, i, text);
      assert IsUsed(indexes + [i], n - 1) <==> IsUsed(indexes, n - 1) || n - 1 == i;
    }
  }

  lemma {:induction false} LeftHas(formats: Formats, n: nat, indexes: seq<nat>, text: string)
    requires n <= Formattable(formats)
    ensures Left(formats, n, indexes, text) > 0 <==>
              exists i :: 0 <= i < n && !IsUsed(indexes, i) && formats[i].value == text
  {
    if n > 0 {
      LeftHas(formats, n - 1, indexes, text);
      assert !IsUsed(indexes, n - 1) && formats[n - 1].value == text ==> Left(formats, n, indexes, text) > 0;
    }
  }

  /** What has been bound and what is left always make up the whole. */
  lemma {:induction false} MatchConserves(formats: Formats, contents: seq<string>, text: string)
    requires Match(formats, contents).failure.None?
    ensures var n := Formattable(formats);
            Count(contents, text) + Left(formats, n, Match(formats, contents).indexes, text) == Count(Texts(formats, n), text)
  {
    var n := Formattable(formats);
    if contents == [] {
      LeftAll(formats, n, text);
    } else {
      var init, last := contents[..|contents| - 1], contents[|contents| - 1];
      MatchConserves(formats, init, text);
      MatchIsInjective(formats, init);
      var m := Match(formats, init);
      FirstFitFinds(formats, m.indexes, last, 0);
      LeftTake(formats, n, m.indexes, FirstFit(formats, m.indexes, last, 0).index, text);
    }
  }

  /** One more content finds a place exactly when its text is left over. */
  lemma MatchStep(formats: Formats, contents: seq<string>, last: string)
    requires Match(formats, contents).failure.None?
    ensures var n := Formattable(formats);
            var fit := FirstFit(formats, Match(formats, contents).indexes, last, 0);
            && (fit.At? <==> Count(contents, last) < Count(Texts(formats, n), last))
            && (!fit.At? ==> fit == if n < |formats| then Unformattable else Missing)
  {
    var n := Formattable(formats);
    var m := Match(formats, contents);
    MatchConserves(formats, contents, last);
    MatchIsInjective(formats, contents);
    FirstFitFinds(formats, m.indexes, last, 0);
    LeftHas(formats, n, m.indexes, last);
  }

  lemma {:induction false} MatchByCount(formats: Formats, contents: seq<string>)
    ensures var n := Formattable(formats);
            var failure := Match(formats, contents).failure;
            && (failure.None? <==> Covers(Texts(formats, n), contents))
            && (failure.Some? ==> failure == Some(if n < |formats| then Unformattable else Missing))
  {
    var texts := Texts(formats, Formattable(formats));
    if contents != [] {
      var init, last := contents[..|contents| - 1], contents[|contents| - 1];
      MatchByCount(formats, init);
      assert forall text :: Count(contents, text) == Count(init, text) + if text == last then 1 else 0;
      if Match(formats, init).failure.None? {
        MatchStep(formats, init, last);
      } else {
        var text :| Count(init, text) > Count(texts, text);
        assert Count(contents, text) > Count(texts, text);
      }
    }
  }

  /** First fit succeeds exactly when it can: the texts wanted, with multiplicity, are among
      the exchanges before the first that cannot be formatted. When it fails, the failure
      is a formatting error exactly when there is such an exchange. */
  lemma MatchExactlyWhenContained(formats: Formats, contents: seq<string>)
    ensures var n := Formattable(formats);
            var failure := Match(formats, contents).failure;
            && (failure.None? <==> multiset(contents) <= multiset(Texts(formats, n)))
            && (failure.Some? ==> failure == Some(if n < |formats| then Unformattable else Missing))
  {
    MatchByCount(formats, contents);
    ContainedByCount(contents, Texts(formats, Formattable(formats)));
  }

  /** So an exchange that cannot be formatted hides a later one with the very text. */
  lemma UnformattableHidesLaterExchange()
    ensures Match([None, Some("a")], ["a"]) == Matching([], Some(Unformattable))
    ensures "a" in multiset(["a"]) && Some("a") in [None, Some("a")]
  {
    assert Match([None, Some("a")], ["a"][..0]) == Matching([], None);
  }

  /** First fit keeps order: of two messages with the same text, the earlier one has the
      earlier exchange. */
  lemma {:induction false} EqualTextsInOrder(formats: Formats, contents: seq<string>, a: nat, b: nat)
    requires a < b < |Match(formats, contents).indexes| <= |contents| && contents[a] == contents[b]
    ensures Match(formats, contents).indexes[a] < Match(formats, contents).indexes[b]
  {
    var init, last := contents[..|contents| - 1], contents[|contents| - 1];
    var m := Match(formats, init);
    MatchIsInjective(formats, init);
    MatchIsInjective(formats, contents);
    if b < |m.indexes| {
      EqualTextsInOrder(formats, init, a, b);
    } else {
      FirstTakenFirst(formats, init, last, m.indexes[a], Match(formats, contents).indexes[b]);
    }
  }

  /** An exchange not yet taken lies after every taken one with the same text. */
  lemma {:induction false} FirstTakenFirst(formats: Formats, contents: seq<string>, content: string, taken: nat, free: nat)
    requires taken in Match(formats, contents).indexes && free !in Match(formats, contents).indexes
    requires taken < Formattable(formats) && free < Formattable(formats)
    requires formats[taken] == formats[free] == Some(content)
    ensures taken < free
  {
    if contents != [] {
      var init := contents[..|contents| - 1];
      var m := Match(formats, init);
      MatchIsInjective(formats, init);
      if taken in m.indexes {
        FirstTakenFirst(formats, init, content, taken, free);
      } else {
        FirstFitFinds(formats, m.indexes, contents[|contents| - 1], 0);
      }
    }
  }

  // ----- the code

  /** The contents that have to be bound, of the first n messages. */
  function Wanted(messages: seq<Message>, provenance: string, n: nat): seq<string>
    requires n <= |messages|
  {
    if n == 0 then []
    else Wanted(messages, provenance, n - 1) +
         if messages[n - 1].provenance == provenance then [messages[n - 1].content] else []
  }

  predicate FirstSystem(messages: seq<Message>, i: nat)
    requires i < |messages|
  {
    messages[i].role == "system" && forall k :: 0 <= k < i ==> messages[k].role != "system"
  }

  function Equipped(messages: seq<Message>, tools: seq<string>, i: nat): Message
    requires i < |messages|
  {
    if FirstSystem(messages, i) then messages[i].(tools := Some(tools)) else messages[i]
  }

  /** Message i after the call: the first system message has the tools, and the messages
      that found their exchange point to it. */
  function Bound(messages: seq<Message>, tools: seq<string>, provenance: string, indexes: seq<nat>, i: nat): Message
    requires i < |messages|
  {
    var m := Equipped(messages, tools, i);
    var rank := |Wanted(messages, provenance, i)|;
    if m.provenance == provenance && rank < |indexes| then m.(exchange := Some(indexes[rank])) else m
  }

  lemma MatchSnoc(formats: Formats, contents: seq<string>, content: string)
    requires Match(formats, contents).failure.None?
    ensures var indexes := Match(formats, contents).indexes;
            var fit := FirstFit(formats, indexes, content, 0);
            Match(formats, contents + [content]) ==
            if fit.At? then Matching(indexes + [fit.index], None) else Matching(indexes, Some(fit))
  {
    assert (contents + [content])[..|contents|] == contents;
  }

  method AttachTools(messages: array<Message>, tools: seq<string>)
    modifies messages
    ensures forall i :: 0 <= i < messages.Length ==> messages[i] == Equipped(old(messages[..]), tools, i)
  {
    for index := 0 to messages.Length
      invariant forall i :: 0 <= i < messages.Length ==> messages[i] == old(messages[i])
      invariant forall i :: 0 <= i < index ==> messages[i].role != "system"
    {
      if messages[index].role == "system" {
        messages[index] := messages[index].(tools := Some(tools));
        break;
      }
    }
  }

  ghost predicate Marks(used: seq<bool>, indexes: seq<nat>) {
    forall i :: 0 <= i < |used| ==> (used[i] <==> IsUsed(indexes, i))
  }

  method FindFit(formats: Formats, used: array<bool>, content: string, ghost indexes: seq<nat>) returns (fit: Fit)
    requires used.Length == |formats| && Marks(used[..], indexes)
    ensures fit == FirstFit(formats, indexes, content, 0)
  {
    for k := 0 to |formats|
      invariant FirstFit(formats, indexes, content, 0) == FirstFit(formats, indexes, content, k)
    {
      if used[k] {
        continue;
      }
      if formats[k].None? { return Unformattable; }
      if formats[k].value != content {
        continue;
      }
      return At(k);
    }
    return Missing;
  }

  /** Earlier messages stand earlier in what is wanted. */
  lemma {:induction false} RankBelow(messages: seq<Message>, provenance: string, n: nat)
    requires n < |messages|
    ensures forall i :: 0 <= i < n && messages[i].provenance == provenance ==>
              |Wanted(messages, provenance, i)| < |Wanted(messages, provenance, n)|
    ensures forall i :: 0 <= i < n ==> |Wanted(messages, provenance, i)| <= |Wanted(messages, provenance, n)|
  {
    if n > 0 {
      RankBelow(messages, provenance, n - 1);
    }
  }

  lemma RankGrows(messages: seq<Message>, provenance: string, n: nat)
    requires n < |messages|
    ensures forall i :: n <= i < |messages| ==> |Wanted(messages, provenance, n)| <= |Wanted(messages, provenance, i)|
  {
    forall i | n <= i < |messages|
      ensures |Wanted(messages, provenance, n)| <= |Wanted(messages, provenance, i)|
    {
      RankBelow(messages, provenance, i);
    }
  }

  /** Once a message has found nothing, the messages after it change nothing. */
  lemma {:induction false} StoppedAt(formats: Formats, messages: seq<Message>, provenance: string, n: nat)
    requires n <= |messages| && Match(formats, Wanted(messages, provenance, n)).failure.Some?
    ensures Match(formats, Wanted(messages, provenance, |messages|)) == Match(formats, Wanted(messages, provenance, n))
    decreases |messages| - n
  {
    if n < |messages| {
      var before, after := Wanted(messages, provenance, n), Wanted(messages, provenance, n + 1);
      assert after == before || after[..|after| - 1] == before;
      StoppedAt(formats, messages, provenance, n + 1);
    }
  }

  /** The first n messages are done, the others only equipped. */
  ghost predicate Progress(was: seq<Message>, now: seq<Message>, tools: seq<string>, provenance: string, indexes: seq<nat>, n: nat) {
    && |now| == |was| && n <= |was| && |indexes| == |Wanted(was, provenance, n)|
    && (forall i :: 0 <= i < n ==> now[i] == Bound(was, tools, provenance, indexes, i))
    && (forall i :: n <= i < |now| ==> now[i] == Equipped(was, tools, i))
  }

  lemma ProgressSkips(was: seq<Message>, now: seq<Message>, tools: seq<string>, provenance: string, indexes: seq<nat>, n: nat)
    requires Progress(was, now, tools, provenance, indexes, n) && n < |was| && now[n].provenance != provenance
    ensures Progress(was, now, tools, provenance, indexes, n + 1)
    ensures Wanted(was, provenance, n + 1) == Wanted(was, provenance, n)
  {
  }

  lemma ProgressBinds(was: seq<Message>, now: seq<Message>, tools: seq<string>, provenance: string, indexes: seq<nat>, n: nat, fit: nat)
    requires Progress(was, now, tools, provenance, indexes, n) && n < |was| && now[n].provenance == provenance
    ensures Progress(was, now[n := now[n].(exchange := Some(fit))], tools, provenance, indexes + [fit], n + 1)
    ensures Wanted(was, provenance, n + 1) == Wanted(was, provenance, n) + [now[n].content]
  {
    RankBelow(was, provenance, n);
  }

  /** All messages stand as they should once the rest want nothing or the search has ended. */
  lemma ProgressEnds(was: seq<Message>, now: seq<Message>, tools: seq<string>, provenance: string, indexes: seq<nat>, n: nat)
    requires Progress(was, now, tools, provenance, indexes, n)
    ensures forall i :: 0 <= i < |was| ==> now[i] == Bound(was, tools, provenance, indexes, i)
  {
    if n < |was| {
      RankGrows(was, provenance, n);
    }
  }

  /** Finds and takes the exchange of the next content. */
  method TakeFit(formats: Formats, used: array<bool>, content: string, ghost contents: seq<string>, ghost indexes: seq<nat>)
    returns (fit: Fit)
    requires used.Length == |formats| && Marks(used[..], indexes)
    requires Match(formats, contents) == Matching(indexes, None)
    modifies used
    ensures fit.At? ==>
              Match(formats, contents + [content]) == Matching(indexes + [fit.index], None) && Marks(used[..], indexes + [fit.index])
    ensures !fit.At? ==> Match(formats, contents + [content]) == Matching(indexes, Some(fit))
  {
    fit := FindFit(formats, used, content, indexes);
    MatchSnoc(formats, contents, content);
    if fit.At? {
      used[fit.index] := true;
    }
  }

  /** One message: bound if it asks for it and a fit is left. */
  method BindMessage(messages: array<Message>, used: array<bool>, index: nat, formats: Formats, provenance: string,
                     ghost was: seq<Message>, ghost tools: seq<string>, ghost indexes: seq<nat>)
    returns (failure: Option<Fit>, ghost extended: seq<nat>)
    requires index < messages.Length && used.Length == |formats|
    requires Progress(was, messages[..], tools, provenance, indexes, index) && Marks(used[..], indexes)
    requires Match(formats, Wanted(was, provenance, index)) == Matching(indexes, None)
    modifies messages, used
    ensures Match(formats, Wanted(was, provenance, index + 1)) == Matching(extended, failure)
    ensures failure.None? ==> Progress(was, messages[..], tools, provenance, extended, index + 1) && Marks(used[..], extended)
    ensures failure.Some? ==> Progress(was, messages[..], tools, provenance, extended, index)
  {
    ghost var before, now := Wanted(was, provenance, index), messages[..];
    var message := messages[index];
    assert message == now[index];
    if message.provenance != provenance {
      ProgressSkips(was, now, tools, provenance, indexes, index);
      return None, indexes;
    }
    var fit := TakeFit(formats, used, message.content, before, indexes);
    if !fit.At? {
      ProgressBinds(was, now, tools, provenance, indexes, index, 0);
      return Some(fit), indexes;
    }
    ProgressBinds(was, now, tools, provenance, indexes, index, fit.index);
    messages[index] := message.(exchange := Some(fit.index));
    assert messages[..] == now[index := message.(exchange := Some(fit.index))];
    return None, indexes + [fit.index];
  }

  method BindToolContext(messages: array<Message>, tools: seq<string>, formats: Formats, provenance: string)
    returns (failure: Option<Fit>)
    modifies messages
    ensures var was := old(messages[..]);
            var m := Match(formats, Wanted(was, provenance, |was|));
            && failure == m.failure
            && forall i :: 0 <= i < messages.Length ==> messages[..][i] == Bound(was, tools, provenance, m.indexes, i)
  {
    ghost var was := messages[..];
    AttachTools(messages, tools);
    var used := new bool[|formats|](_ => false);
    ghost var indexes: seq<nat> := [];
    for index := 0 to messages.Length
      invariant fresh(used) && used.Length == |formats| && Marks(used[..], indexes)
      invariant Match(formats, Wanted(was, provenance, index)) == Matching(indexes, None)
      invariant Progress(was, messages[..], tools, provenance, indexes, index)
    {
      failure, indexes := BindMessage(messages, used, index, formats, provenance, was, tools, indexes);
      if failure.Some? {
        StoppedAt(formats, was, provenance, index + 1);
        ProgressEnds(was, messages[..], tools, provenance, indexes, index);
        return;
      }
    }
    ProgressEnds(was, messages[..], tools, provenance, indexes, messages.Length);
    return None;
  }
}
