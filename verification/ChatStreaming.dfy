/**
  Chat-completions replies in internal/greyproxy/dissector/openai_chat.go: the
  streaming assembler and the one-shot parser.

  Both work on decoded JSON: a streamed chunk is its first choice's delta, or
  None when it does not parse or has no choice. `summary` stands for parsing the
  argument text and summarising it; None means that it does not parse.
 */
module ChatStreaming {
  import opened Common

  type Text = seq<byte>
  type Summary = (Text, Text) -> Option<Text>

  datatype CallDelta = CallDelta(index: nat, id: Text, name: Text, args: Text)
  datatype Delta = Delta(content: Text, calls: seq<CallDelta>)

  datatype Call = Call(id: Text, name: Text, args: Text)
  datatype Message = Message(content: Text, calls: seq<Call>)

  datatype ToolCall = ToolCall(tool: Text, toolUseID: Text, inputPreview: Text, toolSummary: Text)
  datatype Reply = Reply(text: Text, toolCalls: seq<ToolCall>)

  const PREVIEW_LIMIT := 200

  // ----- The one-shot parser -----

  function SummaryOr(summary: Summary, name: Text, args: Text): Text {
    if summary(name, args).Some? then summary(name, args).value else []
  }

  function Preview(args: Text): Text {
    if |args| > PREVIEW_LIMIT then args[..PREVIEW_LIMIT] else args
  }

  function Shown(summary: Summary, c: Call): ToolCall {
    ToolCall(c.name, c.id, Preview(c.args), SummaryOr(summary, c.name, c.args))
  }

  function ShownAll(summary: Summary, calls: seq<Call>): seq<ToolCall> {
    seq(|calls|, i requires 0 <= i < |calls| => Shown(summary, calls[i]))
  }

  function OneShot(summary: Summary, m: Message): Option<Reply> {
    if |m.content| == 0 && |m.calls| == 0 then None else Some(Reply(m.content, ShownAll(summary, m.calls)))
  }

  /** `extractChatNonStreamingResponse` on a parsed message. */
  method ExtractNonStreaming(summary: Summary, m: Message) returns (r: Option<Reply>)
    ensures r == OneShot(summary, m)
  {
    var text: Text := [];
    if |m.content| != 0 {
      text := m.content;
    }
    var toolCalls: seq<ToolCall> := [];
    var i := 0;
    while i < |m.calls|
      invariant 0 <= i <= |m.calls|
      invariant toolCalls == ShownAll(summary, m.calls)[..i]
    {
      var tc := m.calls[i];
      var call := ToolCall(tc.name, tc.id, [], []);
      var args := tc.args;
      var parsed := summary(tc.name, args);
      if parsed.Some? { call := call.(toolSummary := parsed.value); }
      if |args| > PREVIEW_LIMIT { args := args[..PREVIEW_LIMIT]; }
      toolCalls := toolCalls + [call.(inputPreview := args)];
      i := i + 1;
    }
    assert ShownAll(summary, m.calls)[..i] == ShownAll(summary, m.calls);
    if |text| == 0 && |toolCalls| == 0 { return None; }
    r := Some(Reply(text, toolCalls));
  }

  // ----- The streaming assembler -----

  const BLANK_CALL := Call([], [], [])

  function Grow(calls: seq<Call>, n: nat): seq<Call> {
    if |calls| >= n then calls else calls + seq(n - |calls|, _ => BLANK_CALL)
  }

  /** One tool-call delta: grow the list, overwrite non-empty name and id, append the arguments. */
  function Step(calls: seq<Call>, d: CallDelta): seq<Call> {
    var grown := Grow(calls, d.index + 1);
    var c := grown[d.index];
    grown[d.index := Call(if |d.id| != 0 then d.id else c.id, if |d.name| != 0 then d.name else c.name, c.args + d.args)]
  }

  function Fold(ds: seq<CallDelta>): seq<Call> {
    if |ds| == 0 then [] else Step(Fold(ds[..|ds| - 1]), ds[|ds| - 1])
  }

  /** The tool-call deltas of a stream in arrival order, whatever chunks they came in. */
  function CallDeltas(chunks: seq<Option<Delta>>): seq<CallDelta> {
    if |chunks| == 0 then []
    else
      var last := chunks[|chunks| - 1];
      CallDeltas(chunks[..|chunks| - 1]) + (if last.Some? then last.value.calls else [])
  }

  function Content(chunks: seq<Option<Delta>>): Text {
    if |chunks| == 0 then []
    else
      var last := chunks[|chunks| - 1];
      Content(chunks[..|chunks| - 1]) + (if last.Some? then last.value.content else [])
  }

  function Assembled(chunks: seq<Option<Delta>>): Message {
    Message(Content(chunks), Fold(CallDeltas(chunks)))
  }

  function Joined(parts: seq<Text>): Text {
    if |parts| == 0 then [] else Joined(parts[..|parts| - 1]) + parts[|parts| - 1]
  }

  function Raw(calls: seq<ToolCall>): seq<Call> {
    seq(|calls|, i requires 0 <= i < |calls| => Call(calls[i].toolUseID, calls[i].tool, calls[i].inputPreview))
  }

  predicate Untouched(calls: seq<ToolCall>) {
    forall i :: 0 <= i < |calls| ==> calls[i].toolSummary == []
  }

  lemma GrowOne(calls: seq<Call>, n: nat)
    requires n >= |calls|
    ensures Grow(calls, n + 1) == Grow(calls, n) + [BLANK_CALL]
  {
  }

  /** The body of the loop over one delta's tool calls. */
  method AddCallDelta(toolCalls: seq<ToolCall>, tc: CallDelta) returns (out: seq<ToolCall>)
    requires Untouched(toolCalls)
    ensures Untouched(out) && Raw(out) == Step(Raw(toolCalls), tc)
  {
    out := toolCalls;
    while |out| <= tc.index
      invariant Untouched(out) && |out| >= |toolCalls|
      invariant |out| == |toolCalls| || |out| <= tc.index + 1
      invariant Raw(out) == Grow(Raw(toolCalls), |out|)
    {
      GrowOne(Raw(toolCalls), |out|);
      ghost var was := Raw(out);
      out := out + [ToolCall([], [], [], [])];
      assert Raw(out) == was + [BLANK_CALL];
    }
    var c := out[tc.index];
    if |tc.name| != 0 { c := c.(tool := tc.name); }
    if |tc.id| != 0 { c := c.(toolUseID := tc.id); }
    if |tc.args| != 0 { c := c.(inputPreview := c.inputPreview + tc.args); }
    ghost var grown := Raw(out);
    out := out[tc.index := c];
    if |tc.args| == 0 { assert grown[tc.index].args + tc.args == grown[tc.index].args; }
    assert Raw(out) == grown[tc.index := Call(c.toolUseID, c.tool, c.inputPreview)];
  }

  /** The same step seen against the deltas folded so far. */
  method AddNext(toolCalls: seq<ToolCall>, tc: CallDelta, ghost done: seq<CallDelta>) returns (out: seq<ToolCall>)
    requires Untouched(toolCalls) && Raw(toolCalls) == Fold(done)
    ensures Untouched(out) && Raw(out) == Fold(done + [tc])
  {
    FoldSnoc(done, tc);
    out := AddCallDelta(toolCalls, tc);
  }

  lemma FoldSnoc(ds: seq<CallDelta>, d: CallDelta)
    ensures Fold(ds + [d]) == Step(Fold(ds), d)
  {
    assert (ds + [d])[..|ds|] == ds;
  }

  /** One more chunk adds its own content and deltas, or nothing. */
  lemma OneMoreChunk(chunks: seq<Option<Delta>>, n: nat)
    requires n < |chunks|
    ensures chunks[n].Some? ==> Content(chunks[..n + 1]) == Content(chunks[..n]) + chunks[n].value.content
    ensures chunks[n].Some? ==> CallDeltas(chunks[..n + 1]) == CallDeltas(chunks[..n]) + chunks[n].value.calls
    ensures chunks[n].None? ==> Content(chunks[..n + 1]) == Content(chunks[..n])
    ensures chunks[n].None? ==> CallDeltas(chunks[..n + 1]) == CallDeltas(chunks[..n])
  {
    assert chunks[..n + 1][..n] == chunks[..n];
  }

  lemma JoinedSnoc(parts: seq<Text>, t: Text)
    ensures Joined(parts + [t]) == Joined(parts) + t
  {
    assert (parts + [t])[..|parts|] == parts;
  }

  ghost function OneMoreDelta(before: seq<CallDelta>, ds: seq<CallDelta>, j: nat, done: seq<CallDelta>): (r: seq<CallDelta>)
    requires j < |ds| && done == before + ds[..j]
    ensures r == before + ds[..j + 1]
  {
    done + [ds[j]]
  }

  /** The loop over one delta's tool calls. */
  method AddDelta(toolCalls: seq<ToolCall>, ds: seq<CallDelta>, ghost before: seq<CallDelta>) returns (out: seq<ToolCall>)
    requires Untouched(toolCalls) && Raw(toolCalls) == Fold(before)
    ensures Untouched(out) && Raw(out) == Fold(before + ds)
  {
    out := toolCalls;
    ghost var done := before;
    var j := 0;
    while j < |ds|
      invariant 0 <= j <= |ds| && done == before + ds[..j]
      invariant Untouched(out) && Raw(out) == Fold(done)
    {
      out := AddNext(out, ds[j], done);
      done := OneMoreDelta(before, ds, j, done);
      j := j + 1;
    }
    assert done == before + ds;
  }

  /** The truncation loop: summaries come from the full arguments, and empty arguments are not parsed. */
  method FinishCalls(summary: Summary, toolCalls: seq<ToolCall>) returns (out: seq<ToolCall>)
    requires Untouched(toolCalls) && forall name :: summary(name, []).None?
    ensures out == ShownAll(summary, Raw(toolCalls))
  {
    out := toolCalls;
    ghost var shown := ShownAll(summary, Raw(toolCalls));
    var i := 0;
    while i < |out|
      invariant 0 <= i <= |out| == |toolCalls|
      invariant forall k :: 0 <= k < i ==> out[k] == shown[k]
      invariant forall k :: i <= k < |out| ==> out[k] == toolCalls[k]
    {
      var c := out[i];
      assert c == toolCalls[i];
      var parsed := summary(c.tool, c.inputPreview);
      if |c.inputPreview| > PREVIEW_LIMIT {
        if parsed.Some? { c := c.(toolSummary := parsed.value); }
        c := c.(inputPreview := c.inputPreview[..PREVIEW_LIMIT]);
      } else if |c.inputPreview| != 0 {
        if parsed.Some? { c := c.(toolSummary := parsed.value); }
      }
      assert c == shown[i];
      out := out[i := c];
      i := i + 1;
    }
  }

  /** `extractChatStreamingResponse` shows exactly what the one-shot parser shows of the assembled message. */
  method ExtractStreaming(summary: Summary, chunks: seq<Option<Delta>>) returns (r: Option<Reply>)
    requires forall name :: summary(name, []).None?
    ensures r == OneShot(summary, Assembled(chunks))
  {
    if |chunks| == 0 { return None; }
    var textParts: seq<Text> := [];
    var toolCalls: seq<ToolCall> := [];
    var n := 0;
    while n < |chunks|
      invariant 0 <= n <= |chunks|
      invariant Joined(textParts) == Content(chunks[..n])
      invariant |textParts| == 0 <==> |Content(chunks[..n])| == 0
      invariant Untouched(toolCalls) && Raw(toolCalls) == Fold(CallDeltas(chunks[..n]))
    {
      OneMoreChunk(chunks, n);
      if chunks[n].Some? {
        var delta := chunks[n].value;
        if |delta.content| != 0 {
          JoinedSnoc(textParts, delta.content);
          textParts := textParts + [delta.content];
        }
        toolCalls := AddDelta(toolCalls, delta.calls, CallDeltas(chunks[..n]));
      }
      n := n + 1;
    }
    assert chunks[..n] == chunks;
    if |textParts| == 0 && |toolCalls| == 0 { return None; }
    toolCalls := FinishCalls(summary, toolCalls);
    r := Some(Reply(Joined(textParts), toolCalls));
  }

  // ----- Every cutting of a message assembles to that message -----

  /** The deltas of one tool call, in order. */
  function Only(ds: seq<CallDelta>, i: nat): seq<CallDelta> {
    if |ds| == 0 then []
    else Only(ds[..|ds| - 1], i) + (if ds[|ds| - 1].index == i then [ds[|ds| - 1]] else [])
  }

  function ArgsOf(ds: seq<CallDelta>): Text {
    if |ds| == 0 then [] else ArgsOf(ds[..|ds| - 1]) + ds[|ds| - 1].args
  }

  /** Every non-empty name is the call's own, and a non-empty name of the call is sent at least once. */
  predicate Names(ds: seq<CallDelta>, name: Text) {
    (forall k :: 0 <= k < |ds| && |ds[k].name| != 0 ==> ds[k].name == name) &&
    (|name| != 0 ==> exists k :: 0 <= k < |ds| && ds[k].name == name)
  }

  predicate Ids(ds: seq<CallDelta>, id: Text) {
    (forall k :: 0 <= k < |ds| && |ds[k].id| != 0 ==> ds[k].id == id) &&
    (|id| != 0 ==> exists k :: 0 <= k < |ds| && ds[k].id == id)
  }

  /**
    The stream cuts `m` into deltas: the contents in order make up its text;
    the deltas of each call, however interleaved with the others', make up its
    arguments and carry its name and id; the last call is mentioned.
   */
  ghost predicate Cuts(chunks: seq<Option<Delta>>, m: Message) {
    var ds := CallDeltas(chunks);
    Content(chunks) == m.content &&
    (forall k :: 0 <= k < |ds| ==> ds[k].index < |m.calls|) &&
    (|m.calls| > 0 ==> exists k :: 0 <= k < |ds| && ds[k].index == |m.calls| - 1) &&
    forall i :: 0 <= i < |m.calls| ==>
      ArgsOf(Only(ds, i)) == m.calls[i].args && Names(Only(ds, i), m.calls[i].name) && Ids(Only(ds, i), m.calls[i].id)
  }

  /** The most recent non-empty name and id. */
  function LastName(ds: seq<CallDelta>): Text {
    if |ds| == 0 then []
    else if |ds[|ds| - 1].name| != 0 then ds[|ds| - 1].name else LastName(ds[..|ds| - 1])
  }

  function LastId(ds: seq<CallDelta>): Text {
    if |ds| == 0 then []
    else if |ds[|ds| - 1].id| != 0 then ds[|ds| - 1].id else LastId(ds[..|ds| - 1])
  }

  lemma {:induction false} LastNameIsName(ds: seq<CallDelta>, name: Text)
    requires forall k :: 0 <= k < |ds| && |ds[k].name| != 0 ==> ds[k].name == name
    ensures LastName(ds) == [] || LastName(ds) == name
    ensures (exists k :: 0 <= k < |ds| && |ds[k].name| != 0) ==> LastName(ds) == name
    decreases |ds|
  {
    if |ds| > 0 { LastNameIsName(ds[..|ds| - 1], name); }
  }

  lemma {:induction false} LastIdIsId(ds: seq<CallDelta>, id: Text)
    requires forall k :: 0 <= k < |ds| && |ds[k].id| != 0 ==> ds[k].id == id
    ensures LastId(ds) == [] || LastId(ds) == id
    ensures (exists k :: 0 <= k < |ds| && |ds[k].id| != 0) ==> LastId(ds) == id
    decreases |ds|
  {
    if |ds| > 0 { LastIdIsId(ds[..|ds| - 1], id); }
  }

  function CallAt(calls: seq<Call>, i: nat): Call {
    if i < |calls| then calls[i] else BLANK_CALL
  }

  lemma StepAt(calls: seq<Call>, d: CallDelta, i: nat)
    ensures |Step(calls, d)| == if |calls| > d.index then |calls| else d.index + 1
    ensures CallAt(Step(calls, d), i) == if i != d.index then CallAt(calls, i) else
      var c := CallAt(calls, i);
      Call(if |d.id| != 0 then d.id else c.id, if |d.name| != 0 then d.name else c.name, c.args + d.args)
  {
  }

  /** Call by call, the fold sees only that call's own deltas. */
  lemma {:induction false} FoldByCall(ds: seq<CallDelta>, i: nat)
    ensures CallAt(Fold(ds), i) == Call(LastId(Only(ds, i)), LastName(Only(ds, i)), ArgsOf(Only(ds, i)))
    decreases |ds|
  {
    if |ds| > 0 {
      var before, d := ds[..|ds| - 1], ds[|ds| - 1];
      FoldByCall(before, i);
      StepAt(Fold(before), d, i);
      if d.index == i {
        var own := Only(ds, i);
        assert own == Only(before, i) + [d];
        assert own[..|own| - 1] == Only(before, i) && own[|own| - 1] == d;
      } else {
        assert Only(ds, i) == Only(before, i);
      }
    }
  }

  /** The length of the assembled list: one more than the largest index mentioned. */
  function Needed(ds: seq<CallDelta>): nat {
    if |ds| == 0 then 0
    else
      var before := Needed(ds[..|ds| - 1]);
      if before > ds[|ds| - 1].index then before else ds[|ds| - 1].index + 1
  }

  lemma {:induction false} FoldLength(ds: seq<CallDelta>)
    ensures |Fold(ds)| == Needed(ds)
    decreases |ds|
  {
    if |ds| > 0 {
      FoldLength(ds[..|ds| - 1]);
      StepAt(Fold(ds[..|ds| - 1]), ds[|ds| - 1], 0);
    }
  }

  lemma {:induction false} NeededIs(ds: seq<CallDelta>, n: nat)
    requires forall k :: 0 <= k < |ds| ==> ds[k].index < n
    ensures Needed(ds) <= n
    ensures n > 0 && (exists k :: 0 <= k < |ds| && ds[k].index == n - 1) ==> Needed(ds) == n
    decreases |ds|
  {
    if |ds| > 0 { NeededIs(ds[..|ds| - 1], n); }
  }

  /** However a message is cut and its calls interleaved, the stream assembles to that message. */
  lemma CuttingAssembles(chunks: seq<Option<Delta>>, m: Message)
    requires Cuts(chunks, m)
    ensures Assembled(chunks) == m
  {
    var ds := CallDeltas(chunks);
    var calls := Fold(ds);
    FoldLength(ds);
    NeededIs(ds, |m.calls|);
    assert |calls| == |m.calls|;
    forall i | 0 <= i < |calls| ensures calls[i] == m.calls[i] {
      FoldByCall(ds, i);
      assert calls[i] == CallAt(calls, i);
      LastNameIsName(Only(ds, i), m.calls[i].name);
      LastIdIsId(Only(ds, i), m.calls[i].id);
    }
  }

  /**
    Streaming equals non-streaming for every cutting: two streams of one message,
    and the message itself, show the same.
   */
  lemma StreamingEqualsOneShot(summary: Summary, chunks: seq<Option<Delta>>, m: Message)
    requires Cuts(chunks, m)
    ensures OneShot(summary, Assembled(chunks)) == OneShot(summary, m)
  {
    CuttingAssembles(chunks, m);
  }

  // ----- What the reader of a reply sees -----

  /**
    The call is shown under its own name and id, previewed by its first 200
    bytes, and summarised from all of its arguments, however long they are.
   */
  predicate ShowsCall(summary: Summary, c: Call, t: ToolCall) {
    t.tool == c.name && t.toolUseID == c.id && |t.inputPreview| <= 200 && t.inputPreview <= c.args &&
    (|t.inputPreview| < 200 ==> t.inputPreview == c.args) &&
    (summary(c.name, c.args).Some? ==> t.toolSummary == summary(c.name, c.args).value) &&
    (summary(c.name, c.args).None? ==> t.toolSummary == [])
  }

  /** The reply to a message: none if it is empty, else its text and each of its calls in order. */
  predicate Shows(summary: Summary, m: Message, r: Option<Reply>) {
    (r.None? <==> m.content == [] && m.calls == []) &&
    (r.Some? ==> r.value.text == m.content && |r.value.toolCalls| == |m.calls|) &&
    forall i :: r.Some? && 0 <= i < |m.calls| ==> ShowsCall(summary, m.calls[i], r.value.toolCalls[i])
  }

  lemma OneShotShows(summary: Summary, m: Message)
    ensures Shows(summary, m, OneShot(summary, m))
  {
  }

  /** Of any stream that cuts a message, what the message itself would show. */
  lemma StreamShows(summary: Summary, chunks: seq<Option<Delta>>, m: Message)
    requires Cuts(chunks, m)
    ensures Shows(summary, m, OneShot(summary, Assembled(chunks)))
  {
    CuttingAssembles(chunks, m);
    OneShotShows(summary, m);
  }

  /** Two reports that show the same message are the same report. */
  lemma ShowsDetermines(summary: Summary, m: Message, r: Option<Reply>, q: Option<Reply>)
    requires Shows(summary, m, r) && Shows(summary, m, q)
    ensures r == q
  {
    if r.Some? {
      forall i | 0 <= i < |m.calls| ensures r.value.toolCalls[i] == q.value.toolCalls[i] {
        var a, b := r.value.toolCalls[i].inputPreview, q.value.toolCalls[i].inputPreview;
        assert ShowsCall(summary, m.calls[i], r.value.toolCalls[i]) && ShowsCall(summary, m.calls[i], q.value.toolCalls[i]);
        assert |a| == |b| && a == m.calls[i].args[..|a|] && b == m.calls[i].args[..|b|];
      }
      assert r.value.toolCalls == q.value.toolCalls;
    }
  }

  lemma LastApart<T>(x: seq<T>, y: seq<T>)
    requires |y| > 0
    ensures x + y == (x + y[..|y| - 1]) + [y[|y| - 1]] && y == y[..|y| - 1] + [y[|y| - 1]]
  {
  }

  /** Content comes in arrival order, chunk after chunk. */
  lemma {:induction false} ContentAppends(x: seq<Option<Delta>>, y: seq<Option<Delta>>)
    ensures Content(x + y) == Content(x) + Content(y)
    decreases |y|
  {
    if |y| == 0 {
      assert x + y == x;
    } else {
      var before, last := y[..|y| - 1], y[|y| - 1];
      LastApart(x, y);
      ContentAppends(x, before);
      ChunkSnoc(x + before, last);
    }
  }

  /** So do the call deltas. */
  lemma {:induction false} CallDeltasAppend(x: seq<Option<Delta>>, y: seq<Option<Delta>>)
    ensures CallDeltas(x + y) == CallDeltas(x) + CallDeltas(y)
    decreases |y|
  {
    if |y| == 0 {
      assert x + y == x;
    } else {
      var before, last := y[..|y| - 1], y[|y| - 1];
      LastApart(x, y);
      CallDeltasAppend(x, before);
      ChunkSnoc(x + before, last);
    }
  }

  lemma ChunkSnoc(chunks: seq<Option<Delta>>, c: Option<Delta>)
    ensures Content(chunks + [c]) == Content(chunks) + (if c.Some? then c.value.content else [])
    ensures CallDeltas(chunks + [c]) == CallDeltas(chunks) + (if c.Some? then c.value.calls else [])
  {
    assert (chunks + [c])[..|chunks|] == chunks;
  }

  lemma OneChunk(d: Delta)
    ensures Content([Some(d)]) == d.content && CallDeltas([Some(d)]) == d.calls
    ensures Content([None]) == [] && CallDeltas([None]) == []
  {
  }

  /** A call's own deltas, and the arguments they make up, are in arrival order too. */
  lemma {:induction false} DeltasAppend(x: seq<CallDelta>, y: seq<CallDelta>, i: nat)
    ensures Only(x + y, i) == Only(x, i) + Only(y, i) && ArgsOf(x + y) == ArgsOf(x) + ArgsOf(y)
    decreases |y|
  {
    if |y| == 0 {
      assert x + y == x;
    } else {
      var before, last := y[..|y| - 1], y[|y| - 1];
      LastApart(x, y);
      DeltasAppend(x, before, i);
      DeltaSnoc(x + before, last, i);
      DeltaSnoc(before, last, i);
    }
  }

  lemma DeltaSnoc(ds: seq<CallDelta>, d: CallDelta, i: nat)
    ensures Only(ds + [d], i) == Only(ds, i) + (if d.index == i then [d] else []) && ArgsOf(ds + [d]) == ArgsOf(ds) + d.args
  {
    assert (ds + [d])[..|ds|] == ds;
  }

  lemma OneDelta(d: CallDelta, i: nat)
    ensures Only([d], i) == (if d.index == i then [d] else []) && ArgsOf([d]) == d.args
  {
  }
}
