/**
  Messages to rounds: `buildRoundsFromMessages`, with tool calls as objects that
  a step and the pending map share.
 */
module Rounds {
  import opened Common
  import opened Messages
  import opened ToolResults

  // ----- What a message shows -----

  function Uses(content: seq<Block>): (r: seq<Block>)
    ensures forall b <- r :: b.ToolUse?
  {
    if |content| == 0 then []
    else
      var rest, b := Uses(content[..|content| - 1]), content[|content| - 1];
      if b.ToolUse? then rest + [b] else rest
  }

  /** An assistant message's tool calls; a message with raw content shows none. */
  function CallsIn(m: Message): (r: seq<Block>)
    ensures forall b <- r :: b.ToolUse?
  {
    if m.rawContent != "" then [] else Uses(m.content)
  }

  function CallEvents(uses: seq<Block>): (r: seq<Event>)
    requires forall b <- uses :: b.ToolUse?
    ensures |r| == |uses| && forall i :: 0 <= i < |r| ==> r[i] == Call(uses[i].id)
  {
    seq(|uses|, i requires 0 <= i < |uses| => Call(uses[i].id))
  }

  /** `getToolResults`. */
  function ResultsIn(content: seq<Block>): (r: seq<Event>)
    ensures forall e <- r :: e.Result?
  {
    if |content| == 0 then []
    else
      var rest, b := ResultsIn(content[..|content| - 1]), content[|content| - 1];
      if b.ToolResult? then rest + [Result(b.toolUseID, Outcome(b.content, b.isError))] else rest
  }

  function EventsOf(m: Message): seq<Event> {
    if m.role == "assistant" then CallEvents(CallsIn(m))
    else if m.role == "user" then ResultsIn(m.content)
    else []
  }

  function Events(messages: seq<Message>): seq<Event> {
    if |messages| == 0 then [] else Events(messages[..|messages| - 1]) + EventsOf(messages[|messages| - 1])
  }

  function Assistants(messages: seq<Message>): seq<Message> {
    if |messages| == 0 then []
    else
      var rest, m := Assistants(messages[..|messages| - 1]), messages[|messages| - 1];
      if m.role == "assistant" then rest + [m] else rest
  }

  /** What a step shows besides tool calls: text and thinking preview of the message. */
  type Summary = Message -> (Option<string>, Option<string>)

  // ----- Tool calls as shared objects -----

  class ToolCall {
    const tool: string
    const input: string
    const toolSummary: string
    const id: string
    var result: Option<Outcome>

    constructor (b: Block)
      requires b.ToolUse?
      ensures Shows(b) && result == None
    {
      tool, input, toolSummary, id, result := b.name, b.input, b.toolSummary, b.id, None;
    }

    predicate Shows(b: Block) {
      b.ToolUse? && tool == b.name && input == b.input && toolSummary == b.toolSummary && id == b.id
    }
  }

  ghost predicate Distinct(calls: seq<ToolCall>) {
    forall i, j :: 0 <= i < j < |calls| ==> calls[i] != calls[j]
  }

  ghost predicate ShowAll(calls: seq<ToolCall>, uses: seq<Block>) {
    |calls| == |uses| && forall i :: 0 <= i < |calls| ==> calls[i].Shows(uses[i])
  }

  /** The calls carry what the slots say, and the pending map points at the pending ones. */
  ghost predicate Linked(calls: seq<ToolCall>, slots: seq<Slot>, pending: map<string, ToolCall>)
    reads calls
  {
    Distinct(calls) && |calls| == |slots| &&
    (forall i :: 0 <= i < |calls| ==> calls[i].id == slots[i].id && calls[i].result == slots[i].result) &&
    (forall id :: id in pending <==> Pending(slots, id) >= 0) &&
    (forall id <- pending :: pending[id] == calls[Pending(slots, id)])
  }

  /** A new call becomes pending under its id, when it has one. */
  method Register(ghost calls: seq<ToolCall>, ghost slots: seq<Slot>, ghost at: nat, pending: map<string, ToolCall>,
                  tc: ToolCall)
    returns (out: map<string, ToolCall>)
    requires Linked(calls, slots, pending) && tc !in calls && tc.result == None
    ensures Linked(calls + [tc], Next(slots, at, Call(tc.id)), out)
  {
    out := pending;
    if tc.id != "" {
      out := out[tc.id := tc];
    }
    forall id ensures Pending(Next(slots, at, Call(tc.id)), id) == if id != "" && id == tc.id then |slots| else Pending(slots, id) {
      PendingSnoc(slots, Slot(at, tc.id, None), id);
    }
  }

  lemma PendingSnoc(slots: seq<Slot>, s: Slot, id: string)
    ensures Pending(slots + [s], id) == if id != "" && id == s.id then |slots| else Pending(slots, id)
  {
    assert (slots + [s])[..|slots|] == slots;
  }

  /** A result is written into the pending call with its id. */
  method Attach(ghost calls: seq<ToolCall>, ghost slots: seq<Slot>, ghost at: nat, pending: map<string, ToolCall>,
                id: string, outcome: Outcome)
    requires Linked(calls, slots, pending)
    modifies calls
    ensures Linked(calls, Next(slots, at, Result(id, outcome)), pending)
  {
    ghost var k := Pending(slots, id);
    if id in pending {
      assert pending[id] == calls[k];
      var tc := pending[id];
      tc.result := Some(outcome);
      SameIds(slots, slots[k := slots[k].(result := Some(outcome))]);
    }
  }

  /** What is pending depends only on the ids. */
  lemma {:induction false} SameIds(a: seq<Slot>, b: seq<Slot>)
    requires |a| == |b| && forall i :: 0 <= i < |a| ==> a[i].id == b[i].id
    ensures forall id :: Pending(a, id) == Pending(b, id)
    decreases |a|
  {
    if |a| > 0 { SameIds(a[..|a| - 1], b[..|b| - 1]); }
  }

  lemma RunSnoc(events: seq<Event>, e: Event)
    ensures Run(events + [e]) == Next(Run(events), |events|, e)
  {
    assert (events + [e])[..|events|] == events;
  }

  // ----- The loops of one round -----

  /** The tool calls of `getAssistantSummary`, as new objects without results. */
  method NewCalls(m: Message) returns (calls: seq<ToolCall>)
    ensures ShowAll(calls, CallsIn(m)) && Distinct(calls) && fresh(calls) && forall c <- calls :: c.result == None
  {
    calls := [];
    if m.rawContent != "" { return; }
    var i := 0;
    while i < |m.content|
      invariant 0 <= i <= |m.content|
      invariant ShowAll(calls, Uses(m.content[..i])) && Distinct(calls) && fresh(calls) && forall c <- calls :: c.result == None
    {
      assert m.content[..i + 1][..i] == m.content[..i];
      if m.content[i].ToolUse? {
        var tc := new ToolCall(m.content[i]);
        calls := calls + [tc];
      }
      i := i + 1;
    }
    assert m.content[..i] == m.content;
  }

  lemma PrefixSnoc<T>(s: seq<T>, j: nat)
    requires j < |s|
    ensures s[..j + 1] == s[..j] + [s[j]]
  {
  }

  lemma OneMore<T>(a: seq<T>, b: seq<T>, i: nat)
    requires i < |b|
    ensures a + b[..i + 1] == a + b[..i] + [b[i]]
  {
  }

  /** The loop that makes a message's calls pending. */
  method RegisterAll(ghost calls: seq<ToolCall>, ghost events: seq<Event>, pending: map<string, ToolCall>,
                     tcs: seq<ToolCall>, ghost uses: seq<Block>) returns (out: map<string, ToolCall>)
    requires Linked(calls, Run(events), pending) && (forall b <- uses :: b.ToolUse?) && ShowAll(tcs, uses)
    requires Distinct(tcs) && forall c <- tcs :: c !in calls && c.result == None
    ensures Linked(calls + tcs, Run(events + CallEvents(uses)), out)
  {
    out := pending;
    ghost var done, seen := calls, events;
    var i := 0;
    while i < |tcs|
      invariant 0 <= i <= |tcs| && done == calls + tcs[..i] && seen == events + CallEvents(uses)[..i]
      invariant Linked(done, Run(seen), out)
    {
      RunSnoc(seen, Call(tcs[i].id));
      OneMore(calls, tcs, i);
      OneMore(events, CallEvents(uses), i);
      assert tcs[i] !in tcs[..i];
      out := Register(done, Run(seen), |seen|, out, tcs[i]);
      done, seen := done + [tcs[i]], seen + [Call(tcs[i].id)];
      i := i + 1;
    }
    assert done == calls + tcs && seen == events + CallEvents(uses);
  }

  lemma ResultsSnoc(events: seq<Event>, content: seq<Block>, i: nat)
    requires i < |content|
    ensures var b, was := content[i], events + ResultsIn(content[..i]);
      events + ResultsIn(content[..i + 1]) ==
        if b.ToolResult? then was + [Result(b.toolUseID, Outcome(b.content, b.isError))] else was
  {
    assert content[..i + 1][..i] == content[..i];
  }

  /** The loop that hands a message's results to the pending calls. */
  method AttachAll(ghost calls: seq<ToolCall>, ghost events: seq<Event>, pending: map<string, ToolCall>,
                   content: seq<Block>)
    requires Linked(calls, Run(events), pending)
    modifies calls
    ensures Linked(calls, Run(events + ResultsIn(content)), pending)
  {
    ghost var seen := events;
    var i := 0;
    while i < |content|
      invariant 0 <= i <= |content| && seen == events + ResultsIn(content[..i])
      invariant Linked(calls, Run(seen), pending)
    {
      var b := content[i];
      ResultsSnoc(events, content, i);
      if b.ToolResult? {
        var outcome := Outcome(b.content, b.isError);
        RunSnoc(seen, Result(b.toolUseID, outcome));
        Attach(calls, Run(seen), |seen|, pending, b.toolUseID, outcome);
        seen := seen + [Result(b.toolUseID, outcome)];
      }
      i := i + 1;
    }
    assert content[..i] == content;
  }

  datatype Step = Step(text: Option<string>, thinking: Option<string>, toolCalls: seq<ToolCall>)

  datatype Round = Round(turnNumber: nat, userPrompt: string, steps: seq<Step>, apiCalls: nat)

  /** The objects of all steps, in order. */
  function AllCalls(steps: seq<Step>): seq<ToolCall> {
    if |steps| == 0 then [] else AllCalls(steps[..|steps| - 1]) + steps[|steps| - 1].toolCalls
  }

  ghost predicate StepShows(summary: Summary, s: Step, m: Message) {
    s.text == summary(m).0 && s.thinking == summary(m).1 && ShowAll(s.toolCalls, CallsIn(m))
  }

  /** One step per assistant message, showing it. */
  ghost predicate StepsShow(summary: Summary, steps: seq<Step>, assistants: seq<Message>) {
    |steps| == |assistants| && forall i :: 0 <= i < |steps| ==> StepShows(summary, steps[i], assistants[i])
  }

  /** Every call carries the last result with its id before the id was used again. */
  ghost predicate Carried(calls: seq<ToolCall>, events: seq<Event>)
    reads calls
  {
    var slots := Run(events);
    |calls| == |slots| && forall i :: 0 <= i < |calls| ==>
      slots[i].at < |events| && events[slots[i].at] == Call(calls[i].id) && calls[i].result == Carries(events, slots[i].at)
  }

  lemma LinkedCarries(calls: seq<ToolCall>, events: seq<Event>, pending: map<string, ToolCall>)
    requires Linked(calls, Run(events), pending)
    ensures Carried(calls, events)
  {
    CallsCarryLastResult(events);
    forall i | 0 <= i < |calls| ensures Run(events)[i].at < |events| && events[Run(events)[i].at] == Call(calls[i].id) &&
                                        calls[i].result == Carries(events, Run(events)[i].at) {
      assert CarriedAt(events, Run(events), i);
    }
  }

  /** The branch of an assistant message. */
  method AssistantStep(summary: Summary, m: Message, ghost calls: seq<ToolCall>, ghost events: seq<Event>,
                       pending: map<string, ToolCall>)
    returns (s: Step, out: map<string, ToolCall>)
    requires m.role == "assistant" && Linked(calls, Run(events), pending)
    ensures StepShows(summary, s, m) && fresh(s.toolCalls) && Linked(calls + s.toolCalls, Run(events + EventsOf(m)), out)
  {
    var tcs := NewCalls(m);
    out := RegisterAll(calls, events, pending, tcs, CallsIn(m));
    s := Step(summary(m).0, summary(m).1, tcs);
  }

  /** The loop over the messages after a real prompt. */
  method BuildSteps(summary: Summary, messages: seq<Message>) returns (steps: seq<Step>, apiCalls: nat)
    ensures StepsShow(summary, steps, Assistants(messages)) && apiCalls == |Assistants(messages)|
    ensures fresh(AllCalls(steps)) && Carried(AllCalls(steps), Events(messages))
  {
    steps, apiCalls := [], 0;
    var pending: map<string, ToolCall> := map[];
    ghost var calls, events, assistants, done := [], [], [], [];
    var j := 0;
    while j < |messages|
      invariant 0 <= j <= |messages| && done == messages[..j] && calls == AllCalls(steps)
      invariant events == Events(done) && assistants == Assistants(done)
      invariant StepsShow(summary, steps, assistants) && apiCalls == |assistants|
      invariant fresh(calls) && Linked(calls, Run(events), pending)
    {
      var m := messages[j];
      OneMoreMessage(done, m);
      PrefixSnoc(messages, j);
      done := done + [m];
      if m.role == "assistant" {
        apiCalls := apiCalls + 1;
        var s;
        s, pending := AssistantStep(summary, m, calls, events, pending);
        StepsNext(summary, steps, assistants, s, m, steps + [s], assistants + [m]);
        steps := steps + [s];
        calls, events, assistants := calls + s.toolCalls, events + EventsOf(m), assistants + [m];
      } else if m.role == "user" {
        AttachAll(calls, events, pending, m.content);
        events := events + EventsOf(m);
      }
      j := j + 1;
    }
    assert done == messages;
    LinkedCarries(calls, events, pending);
  }

  lemma OneMoreMessage(done: seq<Message>, m: Message)
    ensures Events(done + [m]) == Events(done) + EventsOf(m)
    ensures m.role != "assistant" && m.role != "user" ==> Events(done + [m]) == Events(done)
    ensures Assistants(done + [m]) == if m.role == "assistant" then Assistants(done) + [m] else Assistants(done)
  {
    assert (done + [m])[..|done|] == done;
  }

  lemma StepsNext(summary: Summary, steps: seq<Step>, assistants: seq<Message>, s: Step, m: Message, more: seq<Step>,
                  after: seq<Message>)
    requires StepsShow(summary, steps, assistants) && StepShows(summary, s, m)
    requires more == steps + [s] && after == assistants + [m]
    ensures StepsShow(summary, more, after) && AllCalls(more) == AllCalls(steps) + s.toolCalls
  {
    assert more[..|steps|] == steps;
    forall i | 0 <= i < |more| ensures StepShows(summary, more[i], after[i]) {
      if i < |steps| { assert StepShows(summary, steps[i], assistants[i]); }
    }
  }

  // ----- Rounds tile the messages -----

  /** The positions of the real prompts, ascending. */
  ghost predicate PromptsOf(isReal: RealUser, messages: seq<Message>, at: seq<nat>, n: nat) {
    n <= |messages| &&
    (forall r :: 0 <= r < |at| ==> at[r] < n && RealPrompt(isReal, messages[at[r]])) &&
    (forall r, q :: 0 <= r < q < |at| ==> at[r] < at[q]) &&
    (forall i :: 0 <= i < n && RealPrompt(isReal, messages[i]) ==> i in at)
  }

  method FindPrompts(isReal: RealUser, messages: seq<Message>) returns (at: seq<nat>)
    ensures PromptsOf(isReal, messages, at, |messages|)
  {
    at := [];
    var i := 0;
    while i < |messages|
      invariant 0 <= i <= |messages| && PromptsOf(isReal, messages, at, i)
    {
      if messages[i].role == "user" && isReal(messages[i]) {
        ghost var before := at;
        at := at + [i];
        assert at[|before|] == i && forall k <- before :: k in at;
      }
      i := i + 1;
    }
  }

  /** Where round `r` ends: at the next real prompt or the end of the messages. */
  function End(at: seq<nat>, n: nat, r: nat): nat
    requires r < |at|
  {
    if r + 1 < |at| then at[r + 1] else n
  }

  /** Positions of prompts: ascending and within the messages. */
  ghost predicate Positions(at: seq<nat>, n: nat) {
    (forall r :: 0 <= r < |at| ==> at[r] < n) && forall r, q :: 0 <= r < q < |at| ==> at[r] < at[q]
  }

  /** The messages of round `r`, its prompt first. */
  function RoundMessages(messages: seq<Message>, at: seq<nat>, r: nat): (part: seq<Message>)
    requires Positions(at, |messages|) && r < |at|
    ensures |part| > 0 && part[0] == messages[at[r]]
  {
    messages[at[r]..End(at, |messages|, r)]
  }

  /** The rounds from `r` on, one after the other. */
  function Tiled(messages: seq<Message>, at: seq<nat>, r: nat): seq<Message>
    requires Positions(at, |messages|) && r <= |at|
    decreases |at| - r
  {
    if r == |at| then [] else RoundMessages(messages, at, r) + Tiled(messages, at, r + 1)
  }

  /** Rounds tile the messages from the first real prompt on. */
  lemma {:induction false} RoundsTile(messages: seq<Message>, at: seq<nat>, r: nat)
    requires Positions(at, |messages|) && r < |at|
    ensures Tiled(messages, at, r) == messages[at[r]..]
    decreases |at| - r
  {
    if r + 1 < |at| {
      RoundsTile(messages, at, r + 1);
      assert messages[at[r]..] == messages[at[r]..at[r + 1]] + messages[at[r + 1]..];
    } else {
      assert Tiled(messages, at, r + 1) == [];
    }
  }

  /** A round holds one real prompt, its first message. */
  lemma OnePromptEach(isReal: RealUser, messages: seq<Message>, at: seq<nat>, r: nat, i: nat)
    requires PromptsOf(isReal, messages, at, |messages|) && r < |at| && i < |RoundMessages(messages, at, r)|
    ensures RealPrompt(isReal, RoundMessages(messages, at, r)[i]) <==> i == 0
  {
    forall q | r < q < |at| ensures at[q] != at[r] + i { assert at[r + 1] <= at[q]; }
    forall q | 0 <= q < r ensures at[q] < at[r] + i {}
    if RealPrompt(isReal, messages[at[r] + i]) {
      var q :| 0 <= q < |at| && at[q] == at[r] + i;
    }
  }

  lemma {:induction false} AssistantsConcat(a: seq<Message>, b: seq<Message>)
    ensures Assistants(a + b) == Assistants(a) + Assistants(b)
    decreases |b|
  {
    if |b| == 0 {
      assert a + b == a;
    } else {
      var n := |b| - 1;
      AssistantsConcat(a, b[..n]);
      assert (a + b)[..|a + b| - 1] == a + b[..n];
    }
  }

  /** A round's prompt is no assistant message. */
  lemma PromptIsNoCall(part: seq<Message>)
    requires |part| > 0 && part[0].role == "user"
    ensures Assistants(part) == Assistants(part[1..])
  {
    assert part == [part[0]] + part[1..];
    AssistantsConcat([part[0]], part[1..]);
    assert Assistants([part[0]]) == [] by { assert [part[0]][..0] == []; }
  }

  function CallsFrom(messages: seq<Message>, at: seq<nat>, r: nat): nat
    requires Positions(at, |messages|) && r <= |at|
    decreases |at| - r
  {
    if r == |at| then 0 else |Assistants(RoundMessages(messages, at, r)[1..])| + CallsFrom(messages, at, r + 1)
  }

  /** The rounds' API calls are the assistant messages from the first real prompt on. */
  lemma {:induction false} ApiCallsAddUp(messages: seq<Message>, at: seq<nat>, r: nat)
    requires Positions(at, |messages|) && r < |at| && forall q :: r <= q < |at| ==> messages[at[q]].role == "user"
    ensures CallsFrom(messages, at, r) == |Assistants(messages[at[r]..])|
    decreases |at| - r
  {
    var part := RoundMessages(messages, at, r);
    PromptIsNoCall(part);
    if r + 1 < |at| {
      ApiCallsAddUp(messages, at, r + 1);
      var rest := messages[at[r + 1]..];
      assert messages[at[r]..] == part + rest;
      AssistantsConcat(part, rest);
    } else {
      assert CallsFrom(messages, at, r + 1) == 0 && part == messages[at[r]..];
    }
  }

  // ----- All rounds -----

  /** A round shows its prompt, its messages and its calls' results. */
  ghost predicate RoundShows(summary: Summary, userText: Message -> string, part: seq<Message>, number: nat, round: Round)
    requires |part| > 0
    reads AllCalls(round.steps)
  {
    round.turnNumber == number && round.userPrompt == userText(part[0]) &&
    StepsShow(summary, round.steps, Assistants(part[1..])) && round.apiCalls == |Assistants(part[1..])| &&
    Carried(AllCalls(round.steps), Events(part[1..]))
  }

  function TotalCalls(rounds: seq<Round>, r: nat): nat
    requires r <= |rounds|
    decreases |rounds| - r
  {
    if r == |rounds| then 0 else rounds[r].apiCalls + TotalCalls(rounds, r + 1)
  }

  lemma {:induction false} TotalIsCallsFrom(messages: seq<Message>, at: seq<nat>, rounds: seq<Round>, r: nat)
    requires Positions(at, |messages|) && r <= |at| == |rounds|
    requires forall q :: 0 <= q < |rounds| ==> rounds[q].apiCalls == |Assistants(RoundMessages(messages, at, q)[1..])|
    ensures TotalCalls(rounds, r) == CallsFrom(messages, at, r)
    decreases |at| - r
  {
    if r < |at| { TotalIsCallsFrom(messages, at, rounds, r + 1); }
  }

  /** One round, from its prompt to before the next. */
  method BuildRound(userText: Message -> string, summary: Summary, part: seq<Message>, number: nat) returns (round: Round)
    requires |part| > 0
    ensures RoundShows(summary, userText, part, number, round) && fresh(AllCalls(round.steps))
  {
    var steps, apiCalls := BuildSteps(summary, part[1..]);
    round := Round(number, userText(part[0]), steps, apiCalls);
  }

  /** The loop over the prompts. */
  method BuildAll(userText: Message -> string, summary: Summary, messages: seq<Message>, at: seq<nat>)
    returns (rounds: seq<Round>)
    requires Positions(at, |messages|)
    ensures |rounds| == |at|
    ensures forall r :: 0 <= r < |rounds| ==>
      RoundShows(summary, userText, RoundMessages(messages, at, r), r + 1, rounds[r])
  {
    rounds := [];
    ghost var made: set<ToolCall> := {};
    var r := 0;
    while r < |at|
      invariant 0 <= r <= |at| && |rounds| == r
      invariant forall q :: 0 <= q < r ==> RoundShows(summary, userText, RoundMessages(messages, at, q), q + 1, rounds[q])
      invariant forall q, i :: 0 <= q < r && 0 <= i < |AllCalls(rounds[q].steps)| ==> AllCalls(rounds[q].steps)[i] in made
    {
      var endIdx := |messages|;
      if r + 1 < |at| { endIdx := at[r + 1]; }
      var round := BuildRound(userText, summary, messages[at[r]..endIdx], r + 1);
      assert forall q :: 0 <= q < r ==> RoundShows(summary, userText, RoundMessages(messages, at, q), q + 1, rounds[q]);
      made := made + set c <- AllCalls(round.steps);
      rounds := rounds + [round];
      r := r + 1;
    }
  }

  /**
    `buildRoundsFromMessages`: a round per real prompt, each showing its stretch
    of messages, and as many API calls in all as assistant messages from the
    first real prompt on.
   */
  method BuildRoundsFromMessages(isReal: RealUser, userText: Message -> string, summary: Summary, messages: seq<Message>)
    returns (rounds: seq<Round>, at: seq<nat>)
    ensures PromptsOf(isReal, messages, at, |messages|) && |rounds| == |at|
    ensures forall r :: 0 <= r < |rounds| ==>
      RoundShows(summary, userText, RoundMessages(messages, at, r), r + 1, rounds[r])
    ensures |at| > 0 ==> TotalCalls(rounds, 0) == |Assistants(messages[at[0]..])|
  {
    at := FindPrompts(isReal, messages);
    if |at| == 0 { return [], at; }
    rounds := BuildAll(userText, summary, messages, at);
    assert forall r :: 0 <= r < |at| ==> RealPrompt(isReal, messages[at[r]]);
    TotalIsCallsFrom(messages, at, rounds, 0);
    ApiCallsAddUp(messages, at, 0);
  }

  // ----- What the message readers read -----

  lemma BlocksSnoc(content: seq<Block>, b: Block)
    ensures Uses(content + [b]) == Uses(content) + (if b.ToolUse? then [b] else [])
    ensures ResultsIn(content + [b]) == ResultsIn(content) + ResultsIn([b])
  {
    assert (content + [b])[..|content|] == content && [b][..0] == [];
  }

  /** Tool calls and results are read block by block, in order. */
  lemma {:induction false} BlocksAppend(x: seq<Block>, y: seq<Block>)
    ensures Uses(x + y) == Uses(x) + Uses(y) && ResultsIn(x + y) == ResultsIn(x) + ResultsIn(y)
    decreases |y|
  {
    if |y| == 0 {
      assert x + y == x;
    } else {
      var n := |y| - 1;
      BlocksAppend(x, y[..n]);
      assert x + y == (x + y[..n]) + [y[n]] && y == y[..n] + [y[n]];
      BlocksSnoc(x + y[..n], y[n]);
      BlocksSnoc(y[..n], y[n]);
    }
  }

  /** Of single blocks, a tool use is a call, a tool result a result under the id it names, and any other neither. */
  lemma OneBlock(b: Block)
    ensures Uses([b]) == if b.ToolUse? then [b] else []
    ensures ResultsIn([b]) == if b.ToolResult? then [Result(b.toolUseID, Outcome(b.content, b.isError))] else []
  {
    assert [b][..0] == [];
  }

  /** Events come from assistant and user messages only, in order; a message with raw content calls nothing. */
  lemma EventsSnoc(messages: seq<Message>, m: Message)
    ensures m.role == "assistant" && m.rawContent == "" ==> Events(messages + [m]) == Events(messages) + CallEvents(Uses(m.content))
    ensures m.role == "user" ==> Events(messages + [m]) == Events(messages) + ResultsIn(m.content)
    ensures (m.role == "assistant" && m.rawContent != "") || (m.role != "assistant" && m.role != "user") ==>
      Events(messages + [m]) == Events(messages)
    ensures Assistants(messages + [m]) == if m.role == "assistant" then Assistants(messages) + [m] else Assistants(messages)
  {
    OneMoreMessage(messages, m);
  }

  /** A round opens at every user message that is real, and at no other message. */
  lemma RoundPerPrompt(isReal: RealUser, messages: seq<Message>, at: seq<nat>, i: nat)
    requires PromptsOf(isReal, messages, at, |messages|) && i < |messages|
    ensures i in at <==> messages[i].role == "user" && isReal(messages[i])
  {
  }
}
