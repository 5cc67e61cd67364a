/** What the model is asked: the answered turns of a conversation, trimmed, with the question at the
    end, and after a tool call the call and its result. */
module BotPrompt {
  datatype Role = User | Model

  datatype ToolCall = ToolCall(name: string, args: string)

  datatype Turn =
    | Text(role: Role, text: string)
    | Call(call: ToolCall)
    | Result(name: string, payload: string)

  function RoleOf(t: Turn): Role {
    match t
    case Text(role, _) => role
    case Call(_) => Model
    case Result(_, _) => User
  }

  const MAX_HISTORY_TURNS := 6

  // ---------- The turns that were answered ----------

  /** A user turn directly before a model turn. */
  predicate PairAt(turns: seq<Turn>, i: int) {
    0 <= i && i + 1 < |turns| && RoleOf(turns[i]) == User && RoleOf(turns[i + 1]) == Model
  }

  predicate Kept(turns: seq<Turn>, i: int) {
    PairAt(turns, i) || PairAt(turns, i - 1)
  }

  /** The kept ones among the first n turns. */
  function KeptOf(turns: seq<Turn>, n: nat): seq<Turn>
    requires n <= |turns|
  {
    if n == 0 then []
    else KeptOf(turns, n - 1) + if Kept(turns, n - 1) then [turns[n - 1]] else []
  }

  /** Exactly the turns that belong to an adjacent question and answer, in order. */
  function Answered(turns: seq<Turn>): seq<Turn> {
    KeptOf(turns, |turns|)
  }

  method AnsweredTurns(turns: seq<Turn>) returns (answered: seq<Turn>)
    ensures answered == Answered(turns)
  {
    answered := [];
    var i := 0;
    while i < |turns|
      invariant 0 <= i <= |turns|
      invariant answered == KeptOf(turns, i)
      invariant !PairAt(turns, i - 1)
    {
      if RoleOf(turns[i]) != User {
        i := i + 1;
        continue;
      }
      if i + 1 >= |turns| || RoleOf(turns[i + 1]) != Model {
        i := i + 1;
        continue;
      }
      assert PairAt(turns, i);
      answered := answered + [turns[i], turns[i + 1]];
      assert KeptOf(turns, i + 2) == KeptOf(turns, i) + [turns[i]] + [turns[i + 1]];
      i := i + 2;
    }
  }

  /** User and model in turn, from the user on. */
  predicate Alternates(turns: seq<Turn>) {
    forall i :: 0 <= i < |turns| ==> RoleOf(turns[i]) == if i % 2 == 0 then User else Model
  }

  lemma {:induction false} KeptAlternate(turns: seq<Turn>, n: nat)
    requires n <= |turns|
    ensures Alternates(KeptOf(turns, n))
    ensures |KeptOf(turns, n)| % 2 == if PairAt(turns, n - 1) then 1 else 0
  {
    if n > 0 {
      KeptAlternate(turns, n - 1);
    }
  }

  // ---------- The prompts ----------

  function Trimmed(history: seq<Turn>): seq<Turn> {
    if |history| <= MAX_HISTORY_TURNS then history else history[|history| - MAX_HISTORY_TURNS..]
  }

  function FirstPrompt(history: seq<Turn>, question: string): seq<Turn> {
    Trimmed(history) + [Text(User, question)]
  }

  function SecondPrompt(history: seq<Turn>, question: string, call: ToolCall, payload: string): seq<Turn> {
    FirstPrompt(history, question) + [Call(call), Result(call.name, payload)]
  }

  /** What the provider accepts: roles alternate, the user begins and ends, and calls and results come
      in adjacent pairs of one name. */
  ghost predicate WellFormed(prompt: seq<Turn>) {
    && Alternates(prompt) && |prompt| % 2 == 1
    && (forall i :: 0 <= i < |prompt| && prompt[i].Result? ==>
          0 < i && prompt[i - 1].Call? && prompt[i - 1].call.name == prompt[i].name)
    && (forall i :: 0 <= i < |prompt| && prompt[i].Call? ==> i + 1 < |prompt| && prompt[i + 1].Result?)
  }

  /** A stored conversation: texts by its people and by the bot, in any order. */
  predicate Stored(turns: seq<Turn>) {
    forall i :: 0 <= i < |turns| ==> turns[i].Text?
  }

  lemma {:induction false} KeptAreStored(turns: seq<Turn>, n: nat)
    requires Stored(turns) && n <= |turns|
    ensures Stored(KeptOf(turns, n))
  {
    if n > 0 {
      KeptAreStored(turns, n - 1);
    }
  }

  /** History a prompt can start with: whole pairs of texts. */
  predicate Proper(history: seq<Turn>) {
    Stored(history) && Alternates(history) && |history| % 2 == 0
  }

  lemma AnsweredIsProper(turns: seq<Turn>)
    requires Stored(turns)
    ensures Proper(Answered(turns))
  {
    KeptAlternate(turns, |turns|);
    KeptAreStored(turns, |turns|);
  }

  lemma {:induction false} KeptOfPrefix(turns: seq<Turn>, more: seq<Turn>, n: nat)
    requires n <= |turns| && more != [] && RoleOf(more[0]) == User
    ensures KeptOf(turns + more, n) == KeptOf(turns, n)
  {
    if n > 0 {
      KeptOfPrefix(turns, more, n - 1);
      assert Kept(turns + more, n - 1) <==> Kept(turns, n - 1);
    }
  }

  /** A question without an answer leaves no trace in later prompts; with one, the two are appended. */
  lemma AnsweredGrows(turns: seq<Turn>, question: Turn, answer: Turn)
    requires RoleOf(question) == User && RoleOf(answer) == Model
    ensures Answered(turns + [question]) == Answered(turns)
    ensures Answered(turns + [question, answer]) == Answered(turns) + [question, answer]
  {
    var n := |turns|;
    KeptOfPrefix(turns, [question], n);
    KeptOfPrefix(turns, [question, answer], n);
    var all := turns + [question, answer];
    assert PairAt(all, n);
    assert KeptOf(all, n + 2) == KeptOf(all, n) + [all[n]] + [all[n + 1]];
  }

  /** In terms of people: a question followed by the bot's answer is kept, in full and in order, and a
      question without one is not. */
  lemma AnsweredTexts(turns: seq<Turn>, question: string, answer: string)
    ensures Answered(turns + [Text(User, question)]) == Answered(turns)
    ensures Answered(turns + [Text(User, question), Text(Model, answer)])
            == Answered(turns) + [Text(User, question), Text(Model, answer)]
    ensures Answered([]) == []
  {
    AnsweredGrows(turns, Text(User, question), Text(Model, answer));
  }

  lemma QuestionClosesPrompt(trimmed: seq<Turn>, question: string)
    requires Alternates(trimmed) && Stored(trimmed) && |trimmed| % 2 == 0
    ensures WellFormed(trimmed + [Text(User, question)])
  {}

  lemma ToolPairClosesPrompt(first: seq<Turn>, call: ToolCall, payload: string)
    requires WellFormed(first)
    ensures WellFormed(first + [Call(call), Result(call.name, payload)])
  {}

  lemma TrimmedAlternates(kept: seq<Turn>)
    requires Alternates(kept) && Stored(kept) && |kept| % 2 == 0
    ensures Alternates(Trimmed(kept)) && Stored(Trimmed(kept)) && |Trimmed(kept)| % 2 == 0
  {}

  /** Whatever the history of whole pairs, the first prompt is its latest six turns, or all if there are
      fewer, and then the question, and is well formed; the second repeats it and adds the call with its
      result. */
  lemma PromptsAreWellFormed(history: seq<Turn>, question: string, call: ToolCall, payload: string)
    requires Proper(history)
    ensures var first := FirstPrompt(history, question);
            var second := SecondPrompt(history, question, call, payload);
            && |first| == (if |history| < 6 then |history| else 6) + 1
            && history[|history| + 1 - |first|..] == first[..|first| - 1]
            && WellFormed(first) && first[|first| - 1] == Text(User, question)
            && WellFormed(second) && second == first + [Call(call), Result(call.name, payload)]
  {
    hide WellFormed, Alternates, Stored;
    TrimmedAlternates(history);
    QuestionClosesPrompt(Trimmed(history), question);
    ToolPairClosesPrompt(FirstPrompt(history, question), call, payload);
  }

  // ---------- One question ----------

  datatype Event = TextEvent(text: string) | ToolCallEvent(call: ToolCall)

  datatype Request = Request(history: seq<Turn>, offersTool: bool, stream: bool)

  /** What one call of the model did: events it pushed, its text and tool calls, or an error, which a
      refused push or a deadline is too. */
  datatype Reply = Reply(events: seq<Event>, text: string, calls: seq<ToolCall>, truncated: bool, failed: bool)

  /** A provider of any behaviour; `requests` is the log of its calls. */
  class Client {
    const behave: (nat, Request) -> Reply
    var requests: seq<Request>

    constructor (behave: (nat, Request) -> Reply)
      ensures this.behave == behave && requests == []
    {
      this.behave := behave;
      requests := [];
    }

    method Generate(request: Request, sink: Sink, toolCallsOnly: bool) returns (reply: Reply)
      requires this as object != sink
      modifies this, sink
      ensures requests == old(requests) + [request]
      ensures reply == behave(|old(requests)|, request)
      ensures sink.received == old(sink.received) + Passed(reply.events, toolCallsOnly)
    {
      reply := behave(|requests|, request);
      requests := requests + [request];
      for i := 0 to |reply.events|
        invariant requests == old(requests) + [request]
        invariant sink.received == old(sink.received) + Passed(reply.events[..i], toolCallsOnly)
      {
        assert reply.events[..i + 1][..i] == reply.events[..i];
        if toolCallsOnly && !reply.events[i].ToolCallEvent? {
          continue;
        }
        var _ := sink.Push(reply.events[i]);
      }
      assert reply.events[..|reply.events|] == reply.events;
    }
  }

  /** The reader's end: `received` is every event handed to it, the n-th of which it takes or refuses. */
  class Sink {
    const takes: nat -> bool
    var received: seq<Event>

    constructor (takes: nat -> bool)
      ensures this.takes == takes && received == []
    {
      this.takes := takes;
      received := [];
    }

    method Push(e: Event) returns (ok: bool)
      modifies this
      ensures received == old(received) + [e] && ok == takes(|old(received)|)
    {
      ok := takes(|received|);
      received := received + [e];
    }
  }

  /** The events a sink lets through; round one lets through tool calls only. */
  function Passed(events: seq<Event>, toolCallsOnly: bool): seq<Event> {
    if events == [] then []
    else
      Passed(events[..|events| - 1], toolCallsOnly)
      + if toolCallsOnly && !events[|events| - 1].ToolCallEvent? then [] else [events[|events| - 1]]
  }

  /** In order: with tool calls only, the calls and none of the text; otherwise everything. */
  lemma {:induction false} PassedIs(events: seq<Event>)
    ensures Passed(events, false) == events
    ensures forall text :: Passed(events + [TextEvent(text)], true) == Passed(events, true)
    ensures forall call :: Passed(events + [ToolCallEvent(call)], true) == Passed(events, true) + [ToolCallEvent(call)]
    ensures forall e :: e in Passed(events, true) <==> e in events && e.ToolCallEvent?
  {
    if events != [] {
      PassedIs(events[..|events| - 1]);
      assert events == events[..|events| - 1] + [events[|events| - 1]];
    }
  }

  const TOOL_NAME := "search_products"
  const NO_SUCH_TOOL := "error"

  /** The one tool; `runs` is the log of its calls. */
  class Tool {
    const answer: string -> string
    var runs: seq<ToolCall>

    constructor (answer: string -> string)
      ensures this.answer == answer && runs == []
    {
      this.answer := answer;
      runs := [];
    }

    method Execute(call: ToolCall) returns (payload: string)
      modifies this
      ensures runs == old(runs) + [call] && payload == answer(call.args)
    {
      runs := runs + [call];
      payload := answer(call.args);
    }
  }

  /** The payload answers the call: from a run of the tool on it, or with an error and no run. */
  method RunTool(tool: Tool?, call: ToolCall) returns (payload: string)
    modifies tool
    ensures if tool != null && tool.runs != old(tool.runs) then
              tool.runs == old(tool.runs) + [call] && call.name == TOOL_NAME && payload == tool.answer(call.args)
            else
              (tool == null || call.name != TOOL_NAME) && payload == NO_SUCH_TOOL
  {
    if tool == null || call.name != TOOL_NAME {
      return NO_SUCH_TOOL;
    }
    payload := tool.Execute(call);
  }

  /** One question makes one call of the model, or two when the first asks for a tool; the reply is the
      last call's.  The reader is handed the first round's tool calls, then either that round's text
      once or the second round's events: never text of both rounds. */
  method Ask(client: Client, tool: Tool?, question: string, history: seq<Turn>, sink: Sink)
      returns (reply: Reply, ghost payload: string)
    requires client as object != sink && client as object != tool && sink as object != tool
    modifies client, sink, tool
    ensures var first := Request(FirstPrompt(history, question), tool != null, false);
            var decided := client.behave(|old(client.requests)|, first);
            var base := old(sink.received) + Passed(decided.events, true);
            if decided.failed || decided.calls == [] then
              && client.requests == old(client.requests) + [first]
              && (tool != null ==> tool.runs == old(tool.runs))
              && (if decided.failed || decided.text == "" then reply == decided && sink.received == base
                  else reply == decided.(failed := !sink.takes(|base|))
                       && sink.received == base + [TextEvent(decided.text)])
            else
              var call := decided.calls[0];
              var second := Request(SecondPrompt(history, question, call, payload), tool != null, true);
              && client.requests == old(client.requests) + [first, second]
              && (if tool != null && tool.runs != old(tool.runs) then
                    tool.runs == old(tool.runs) + [call] && call.name == TOOL_NAME && payload == tool.answer(call.args)
                  else
                    (tool == null || call.name != TOOL_NAME) && payload == NO_SUCH_TOOL)
              && reply == client.behave(|old(client.requests)| + 1, second)
              && sink.received == base + Passed(reply.events, false)
  {
    hide Passed, Trimmed;
    payload := "";
    var turns := FirstPrompt(history, question);
    var first := Request(turns, tool != null, false);
    var decided := client.Generate(first, sink, true);
    if decided.failed {
      return decided, "";
    }
    if decided.calls == [] {
      if decided.text != "" {
        var ok := sink.Push(TextEvent(decided.text));
        return decided.(failed := !ok), "";
      }
      return decided, "";
    }
    var call := decided.calls[0];
    var answer := RunTool(tool, call);
    payload := answer;
    turns := turns + [Call(call), Result(call.name, answer)];
    reply := client.Generate(Request(turns, tool != null, true), sink, false);
  }

  /** MAIN RESULT.  A question asked in any stored conversation, of any client, tool and reader: one or
      two requests go to the model, every one of them well formed; the tool runs at most once and only
      under its own name; and a second request ends with the call the model asked for and a result that
      is that run's answer, or an error if there was no run.  The reader is handed no text of a round that
      asked for a tool, every event of the round after it, and the text of an answer given at once. */
  method AskInConversation(client: Client, tool: Tool?, question: string, stored: seq<Turn>, sink: Sink)
      returns (reply: Reply)
    requires client as object != sink && client as object != tool && sink as object != tool
    requires Stored(stored)
    modifies client, sink, tool
    ensures |old(client.requests)| + 1 <= |client.requests| <= |old(client.requests)| + 2
    ensures old(client.requests) <= client.requests
    ensures forall i :: |old(client.requests)| <= i < |client.requests| ==> WellFormed(client.requests[i].history)
    ensures client.requests[|old(client.requests)|].history == FirstPrompt(Answered(stored), question)
    ensures tool != null ==> |tool.runs| <= |old(tool.runs)| + 1 && old(tool.runs) <= tool.runs
    ensures tool != null && tool.runs != old(tool.runs) ==>
      tool.runs[|tool.runs| - 1].name == "search_products" && |client.requests| == |old(client.requests)| + 2
    ensures |client.requests| == |old(client.requests)| + 2 ==>
      exists call, payload ::
        && client.requests[|client.requests| - 1].history
           == FirstPrompt(Answered(stored), question) + [Call(call), Result(call.name, payload)]
        && if tool != null && tool.runs != old(tool.runs) then
             call == tool.runs[|tool.runs| - 1] && payload == tool.answer(call.args)
           else payload == NO_SUCH_TOOL
    ensures |client.requests| == |old(client.requests)| + 2 ==>
      exists calls ::
        && sink.received == old(sink.received) + calls + reply.events
        && forall e :: e in calls ==> e.ToolCallEvent?
    ensures |client.requests| == |old(client.requests)| + 1 ==>
      exists calls ::
        && ((sink.received == old(sink.received) + calls && (reply.failed || reply.text == ""))
            || (reply.text != "" && sink.received == old(sink.received) + calls + [TextEvent(reply.text)]))
        && forall e :: e in calls ==> e.ToolCallEvent?
  {
    hide KeptOf, Trimmed, WellFormed, Passed;
    var history := AnsweredTurns(stored);
    AnsweredIsProper(stored);
    ghost var before := |client.requests|;
    ghost var payload;
    reply, payload := Ask(client, tool, question, history, sink);
    ghost var call := if |client.requests| == before + 2 then
      client.behave(before, client.requests[before]).calls[0] else ToolCall("", "");
    PromptsAreWellFormed(history, question, call, payload);
    PassedIs(client.behave(before, client.requests[before]).events);
    PassedIs(reply.events);
  }

  // ---------- Sharing an answer ----------

  predicate Cacheable(reply: Reply, history: seq<Turn>) {
    reply.text != "" && !reply.truncated && history == []
  }

  /** An answer is shared with others only if it is whole and the model saw nothing but the question. */
  lemma CacheableIffNoContext(reply: Reply, history: seq<Turn>, question: string)
    ensures Cacheable(reply, history)
            <==> reply.text != "" && !reply.truncated && FirstPrompt(history, question) == [Text(User, question)]
  {}
}
