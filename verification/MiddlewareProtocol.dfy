/**
  The middleware client as an interleaved step system: any number of `Send`
  calls, the connect/read/reconnect goroutine, and `Close`, sharing one mutex,
  the `pending` map, the `transport` field and one one-slot channel per call.

  A step is one critical section, one channel operation or one local decision.
  `drainPending` is split into one step per entry, because it sends on channels
  while it holds the mutex and the receivers do not need the mutex.
 */
module MiddlewareProtocol {
  import opened Common
  import opened MiddlewareTypes

  /** Where a `Send` call is. Its channel is identified with the call's number. */
  datatype Phase =
    | Registered                     // entry stored, transport captured
    | Waiting                        // message written, blocked in select
    | Leaving(reason: string)        // gave up, cleanup not yet run
    | Cleaned(reason: string)        // cleanup ran, fallback not yet built
    | Returned(decision: Decision)

  /**
    One `Send` call. `captured` is the connection it read from the transport
    field, `buf` the contents of its channel, `sent` how many values were ever
    sent on that channel.
   */
  datatype Call = Call(id: string, isResponse: bool, captured: Option<nat>,
                       phase: Phase, buf: seq<Decision>, sent: nat)

  datatype PendingEntry = PendingEntry(ch: nat, isResponse: bool)

  /** Where the goroutine of `Start` is. */
  datatype LoopPhase =
    | Dialing
    | Hello
    | Reading
    | Dispatching(ch: nat, d: Decision)  // entry removed, mutex released, send to come
    | Closing                            // read loop left, deferred cleanup to come
    | Disconnected                       // connectAndRun returned
    | LoopDraining
    | Backoff
    | Stopped

  datatype CloserPhase = Idle | Cancelled | CloserDraining

  datatype Lock = Free | HeldByLoop | HeldByCloser

  /**
    `conns` counts the connections installed so far; connection numbers are
    0 .. conns-1. `drained` counts those whose loss has been drained by `Start`.
   */
  datatype State = State(
    onTimeout: string,
    lock: Lock,
    transport: Option<nat>,
    pending: map<string, PendingEntry>,
    calls: seq<Call>,
    loop: LoopPhase,
    closer: CloserPhase,
    cancelled: bool,
    conns: nat,
    drained: nat)

  function Init(onTimeout: string): State {
    State(onTimeout, Free, None, map[], [], Dialing, Idle, false, 0, 0)
  }

  datatype Step =
    | SendRegister(id: string, isResponse: bool)
    | SendGiveUp(c: nat, why: string)   // no transport, marshal error or write error
    | SendWritten(c: nat)
    | SendReceive(c: nat)
    | SendExpire(c: nat, why: string)   // timeout or context cancelled
    | SendCleanup(c: nat)
    | SendFallback(c: nat)
    | LoopDialFailed
    | LoopInstall
    | LoopHello
    | LoopFrame(d: Decision)            // a well-formed frame arrived
    | LoopDeliver
    | LoopReadError                     // hello failed, read failed or context done
    | LoopClear
    | LoopStop
    | LoopDrainBegin
    | LoopDrainEnd
    | LoopRetry
    | CloseCancel
    | CloseDrainBegin
    | CloseDrainEnd
    | DrainOne(id: string)              // by whichever drainer holds the mutex

  predicate InPhase(s: State, c: nat, p: Phase) {
    c < |s.calls| && s.calls[c].phase == p
  }

  /** A call that may still receive a decision or still owes its cleanup. */
  predicate Live(call: Call) {
    call.phase.Registered? || call.phase.Waiting? || call.phase.Leaving?
  }

  /** The one-slot channel has room: a send on it does not block. */
  predicate HasRoom(s: State, ch: nat) {
    ch < |s.calls| && |s.calls[ch].buf| < 1
  }

  /** When the code can take the step; a blocked channel send is not enabled. */
  predicate Enabled(s: State, step: Step) {
    match step
    case SendRegister(_, _) => s.lock.Free?
    case SendGiveUp(c, why) =>
      InPhase(s, c, Registered) &&
      (if s.calls[c].captured.None? then why == "disconnected"
       else why == "marshal_error" || why == "write_error")
    case SendWritten(c) => InPhase(s, c, Registered) && s.calls[c].captured.Some?
    case SendReceive(c) => InPhase(s, c, Waiting) && |s.calls[c].buf| > 0
    case SendExpire(c, why) => InPhase(s, c, Waiting) && (why == "timeout" || why == "context_cancelled")
    case SendCleanup(c) => c < |s.calls| && s.calls[c].phase.Leaving? && s.lock.Free?
    case SendFallback(c) => c < |s.calls| && s.calls[c].phase.Cleaned? && s.lock.Free?
    case LoopDialFailed => s.loop.Dialing?
    case LoopInstall => s.loop.Dialing? && s.lock.Free?
    case LoopHello => s.loop.Hello? && s.lock.Free?
    case LoopFrame(d) => s.loop.Reading? && s.lock.Free? && d.fallback == ""
    case LoopDeliver => s.loop.Dispatching? && HasRoom(s, s.loop.ch)
    case LoopReadError => s.loop.Hello? || s.loop.Reading?
    case LoopClear => s.loop.Closing? && s.lock.Free?
    case LoopStop => s.cancelled && (s.loop.Disconnected? || s.loop.Backoff? || s.loop.Dialing?)
    case LoopDrainBegin => s.loop.Disconnected? && s.lock.Free?
    case LoopDrainEnd => s.lock.HeldByLoop? && s.pending == map[]
    case LoopRetry => s.loop.Backoff?
    case CloseCancel => s.closer.Idle?
    case CloseDrainBegin => s.closer.Cancelled? && s.lock.Free?
    case CloseDrainEnd => s.lock.HeldByCloser? && s.pending == map[]
    case DrainOne(id) => !s.lock.Free? && id in s.pending && HasRoom(s, s.pending[id].ch)
  }

  function SetPhase(s: State, c: nat, p: Phase): State
    requires c < |s.calls|
  {
    s.(calls := s.calls[c := s.calls[c].(phase := p)])
  }

  /** `ch <- d` on a channel with room. */
  function Push(s: State, ch: nat, d: Decision): State
    requires HasRoom(s, ch)
  {
    var call := s.calls[ch];
    s.(calls := s.calls[ch := call.(buf := call.buf + [d], sent := call.sent + 1)])
  }

  function Apply(s: State, step: Step): State
    requires Enabled(s, step)
  {
    match step
    case SendRegister(id, isResponse) =>
      s.(pending := s.pending[id := PendingEntry(|s.calls|, isResponse)],
         calls := s.calls + [Call(id, isResponse, s.transport, Registered, [], 0)])
    case SendGiveUp(c, why) => SetPhase(s, c, Leaving(why))
    case SendWritten(c) => SetPhase(s, c, Waiting)
    case SendReceive(c) =>
      s.(calls := s.calls[c := s.calls[c].(phase := Returned(s.calls[c].buf[0]), buf := s.calls[c].buf[1..])])
    case SendExpire(c, why) => SetPhase(s, c, Leaving(why))
    case SendCleanup(c) =>
      SetPhase(s, c, Cleaned(s.calls[c].phase.reason)).(pending := s.pending - {s.calls[c].id})
    case SendFallback(c) =>
      var call := s.calls[c];
      SetPhase(s, c, Returned(FallbackDecision(s.onTimeout, call.id, call.isResponse, call.phase.reason)))
    case LoopDialFailed => s.(loop := Disconnected)
    case LoopInstall => s.(loop := Hello, transport := Some(s.conns), conns := s.conns + 1)
    case LoopHello => s.(loop := Reading)
    case LoopFrame(d) =>
      if d.id in s.pending then
        s.(pending := s.pending - {d.id}, loop := Dispatching(s.pending[d.id].ch, d))
      else s
    case LoopDeliver => Push(s, s.loop.ch, s.loop.d).(loop := Reading)
    case LoopReadError => s.(loop := Closing)
    case LoopClear => s.(loop := Disconnected, transport := None)
    case LoopStop => s.(loop := Stopped)
    case LoopDrainBegin => s.(loop := LoopDraining, lock := HeldByLoop)
    case LoopDrainEnd => s.(loop := Backoff, lock := Free, drained := s.conns)
    case LoopRetry => s.(loop := Dialing)
    case CloseCancel => s.(closer := Cancelled, cancelled := true)
    case CloseDrainBegin => s.(closer := CloserDraining, lock := HeldByCloser)
    case CloseDrainEnd => s.(closer := Idle, lock := Free)
    case DrainOne(id) =>
      var entry := s.pending[id];
      var d := FallbackDecision(s.onTimeout, id, entry.isResponse, "disconnected");
      Push(s, entry.ch, d).(pending := s.pending - {id})
  }

  /** `steps` can be taken one after another from `s`. */
  predicate CanRun(s: State, steps: seq<Step>)
    decreases |steps|
  {
    |steps| > 0 ==> Enabled(s, steps[0]) && CanRun(Apply(s, steps[0]), steps[1..])
  }

  function Run(s: State, steps: seq<Step>): State
    requires CanRun(s, steps)
    decreases |steps|
  {
    if |steps| == 0 then s else Run(Apply(s, steps[0]), steps[1..])
  }

  // ----- Safety: what every interleaving keeps -----

  /**
    A decision a call may be given: it bears the call's id, and if it was made
    locally it is exactly the fallback of the policy and the call's kind.
   */
  ghost predicate Proper(s: State, call: Call, d: Decision) {
    d.id == call.id &&
    (d.fallback != "" ==> d == FallbackDecision(s.onTimeout, call.id, call.isResponse, d.fallback))
  }

  ghost predicate CallOk(s: State, call: Call) {
    |call.buf| <= call.sent <= 1 &&
    (forall d <- call.buf :: Proper(s, call, d)) &&
    (call.phase.Returned? ==> Proper(s, call, call.phase.decision)) &&
    (call.phase.Returned? && call.sent == 0 ==> call.phase.decision.fallback != "") &&
    (call.phase.Leaving? || call.phase.Cleaned? ==> call.phase.reason != "")
  }

  /** A pending entry points at a call of that id on whose channel nothing was ever sent. */
  ghost predicate EntryOk(s: State, id: string, e: PendingEntry) {
    e.ch < |s.calls| && s.calls[e.ch].id == id && s.calls[e.ch].isResponse == e.isResponse && s.calls[e.ch].sent == 0
  }

  /** The decision in the reader's hands is for an untouched channel that left `pending`. */
  ghost predicate HandOk(s: State, ch: nat, d: Decision) {
    ch < |s.calls| && d.fallback == "" && d.id == s.calls[ch].id && s.calls[ch].sent == 0 &&
    (d.id in s.pending ==> s.pending[d.id].ch != ch)
  }

  ghost predicate LockOk(s: State) {
    (s.lock.HeldByLoop? <==> s.loop.LoopDraining?) &&
    (s.lock.HeldByCloser? <==> s.closer.CloserDraining?)
  }

  predicate Connected(p: LoopPhase) {
    p.Hello? || p.Reading? || p.Dispatching? || p.Closing?
  }

  ghost predicate ConnOk(s: State) {
    (s.transport.Some? <==> Connected(s.loop)) &&
    (s.transport.Some? ==> s.conns == s.drained + 1 && s.transport.value == s.drained) &&
    s.drained <= s.conns &&
    (s.loop.Dialing? || s.loop.Backoff? ==> s.drained == s.conns) &&
    (forall call <- s.calls :: call.captured.Some? ==> call.captured.value < s.conns)
  }

  ghost predicate Inv(s: State) {
    LockOk(s) && ConnOk(s) &&
    (forall call <- s.calls :: CallOk(s, call)) &&
    (forall id <- s.pending :: EntryOk(s, id, s.pending[id])) &&
    (s.loop.Dispatching? ==> HandOk(s, s.loop.ch, s.loop.d))
  }

  /** Neither sender of the protocol can block: not the reader, not a drainer holding the mutex. */
  ghost predicate NoSendBlocks(s: State) {
    (s.loop.Dispatching? ==> HasRoom(s, s.loop.ch)) &&
    (!s.lock.Free? ==> forall id <- s.pending :: HasRoom(s, s.pending[id].ch))
  }

  lemma CallAt(s: State, i: nat)
    requires Inv(s) && i < |s.calls|
    ensures CallOk(s, s.calls[i])
    ensures s.calls[i].captured.Some? ==> s.calls[i].captured.value < s.conns
  {
    assert s.calls[i] in s.calls;
  }

  predicate SendStep(step: Step) {
    step.SendRegister? || step.SendGiveUp? || step.SendWritten? || step.SendReceive?
    || step.SendExpire? || step.SendCleanup? || step.SendFallback?
  }

  predicate ChannelStep(step: Step) {
    step.LoopDeliver? || step.DrainOne?
  }

  /** The step changed this call's phase and channel at most, and took entries out of `pending` at most. */
  ghost predicate OnlyCall(s: State, t: State, c: nat) {
    c < |s.calls| == |t.calls| && t == s.(calls := t.calls, pending := t.pending) &&
    (forall i :: 0 <= i < |s.calls| && i != c ==> t.calls[i] == s.calls[i]) &&
    t.calls[c].id == s.calls[c].id && t.calls[c].isResponse == s.calls[c].isResponse && t.calls[c].captured == s.calls[c].captured &&
    forall id <- t.pending :: id in s.pending && t.pending[id] == s.pending[id]
  }

  lemma OnlyCallKeepsInv(s: State, t: State, c: nat)
    requires Inv(s) && OnlyCall(s, t, c) && CallOk(t, t.calls[c])
    requires t.calls[c].sent == s.calls[c].sent ||
             ((forall id <- t.pending :: t.pending[id].ch != c) && !(s.loop.Dispatching? && s.loop.ch == c))
    ensures Inv(t)
  {
    forall i | 0 <= i < |t.calls|
      ensures CallOk(t, t.calls[i]) && (t.calls[i].captured.Some? ==> t.calls[i].captured.value < t.conns)
    {
      CallAt(s, i);
    }
    forall id <- t.pending ensures EntryOk(t, id, t.pending[id]) { assert EntryOk(s, id, s.pending[id]); }
  }

  lemma RegisterKeepsInv(s: State, id: string, isResponse: bool)
    requires Inv(s) && s.lock.Free?
    ensures Inv(Apply(s, SendRegister(id, isResponse)))
  {
    var t := Apply(s, SendRegister(id, isResponse));
    forall i | 0 <= i < |t.calls|
      ensures CallOk(t, t.calls[i]) && (t.calls[i].captured.Some? ==> t.calls[i].captured.value < t.conns)
    {
      if i < |s.calls| { CallAt(s, i); }
    }
    forall k <- t.pending ensures EntryOk(t, k, t.pending[k]) {
      if k != id { assert EntryOk(s, k, s.pending[k]); }
    }
  }

  lemma SendStepKeepsInv(s: State, step: Step)
    requires Inv(s) && Enabled(s, step) && SendStep(step)
    ensures Inv(Apply(s, step))
  {
    if step.SendRegister? {
      RegisterKeepsInv(s, step.id, step.isResponse);
    } else {
      CallAt(s, step.c);
      if step.SendReceive? { assert s.calls[step.c].buf[0] in s.calls[step.c].buf; }
      OnlyCallKeepsInv(s, Apply(s, step), step.c);
    }
  }

  lemma DeliverKeepsInv(s: State)
    requires Inv(s) && Enabled(s, LoopDeliver)
    ensures Inv(Apply(s, LoopDeliver))
  {
    var t, c := Apply(s, LoopDeliver), s.loop.ch;
    CallAt(s, c);
    forall id <- s.pending ensures s.pending[id].ch != c { assert EntryOk(s, id, s.pending[id]); }
    forall i | 0 <= i < |t.calls|
      ensures CallOk(t, t.calls[i]) && (t.calls[i].captured.Some? ==> t.calls[i].captured.value < t.conns)
    {
      CallAt(s, i);
    }
    forall id <- t.pending ensures EntryOk(t, id, t.pending[id]) { assert EntryOk(s, id, s.pending[id]); }
  }

  lemma DrainOneKeepsInv(s: State, id: string)
    requires Inv(s) && Enabled(s, DrainOne(id))
    ensures Inv(Apply(s, DrainOne(id)))
  {
    var c := s.pending[id].ch;
    assert EntryOk(s, id, s.pending[id]);
    CallAt(s, c);
    forall k <- s.pending | k != id ensures s.pending[k].ch != c { assert EntryOk(s, k, s.pending[k]); }
    OnlyCallKeepsInv(s, Apply(s, DrainOne(id)), c);
  }

  lemma ChannelStepKeepsInv(s: State, step: Step)
    requires Inv(s) && Enabled(s, step) && ChannelStep(step)
    ensures Inv(Apply(s, step))
  {
    if step.DrainOne? { DrainOneKeepsInv(s, step.id); } else { DeliverKeepsInv(s); }
  }

  lemma FrameKeepsInv(s: State, d: Decision)
    requires Inv(s) && Enabled(s, LoopFrame(d))
    ensures Inv(Apply(s, LoopFrame(d)))
  {
    var t := Apply(s, LoopFrame(d));
    forall call <- t.calls ensures CallOk(t, call) { assert CallOk(s, call); }
    if d.id in s.pending { assert EntryOk(s, d.id, s.pending[d.id]); }
    forall id <- t.pending ensures EntryOk(t, id, t.pending[id]) { assert EntryOk(s, id, s.pending[id]); }
  }

  lemma LoopStepKeepsInv(s: State, step: Step)
    requires Inv(s) && Enabled(s, step) && !SendStep(step) && !ChannelStep(step)
    ensures Inv(Apply(s, step))
  {
    if step.LoopFrame? {
      FrameKeepsInv(s, step.d);
    } else {
      var t := Apply(s, step);
      assert t.calls == s.calls && t.onTimeout == s.onTimeout && t.pending == s.pending;
      forall call <- t.calls ensures CallOk(t, call) { assert CallOk(s, call); }
      forall id <- t.pending ensures EntryOk(t, id, t.pending[id]) { assert EntryOk(s, id, s.pending[id]); }
    }
  }

  lemma StepKeepsInv(s: State, step: Step)
    requires Inv(s) && Enabled(s, step)
    ensures Inv(Apply(s, step))
  {
    if SendStep(step) {
      SendStepKeepsInv(s, step);
    } else if ChannelStep(step) {
      ChannelStepKeepsInv(s, step);
    } else {
      LoopStepKeepsInv(s, step);
    }
  }

  lemma {:induction false} RunKeepsInv(s: State, steps: seq<Step>)
    requires Inv(s) && CanRun(s, steps)
    ensures Inv(Run(s, steps))
    decreases |steps|
  {
    if |steps| > 0 {
      StepKeepsInv(s, steps[0]);
      RunKeepsInv(Apply(s, steps[0]), steps[1..]);
    }
  }

  /**
    In every interleaving, even one that reuses ids: each channel is sent on at
    most once, no channel send ever blocks, and every decision a call holds or
    returned is its own, with the fallback action fixed by policy and kind.
   */
  lemma AtMostOneDecision(onTimeout: string, steps: seq<Step>)
    requires CanRun(Init(onTimeout), steps)
    ensures var s := Run(Init(onTimeout), steps);
      NoSendBlocks(s) &&
      forall c :: 0 <= c < |s.calls| ==>
        s.calls[c].sent <= 1 &&
        (forall d <- s.calls[c].buf :: Proper(s, s.calls[c], d)) &&
        (s.calls[c].phase.Returned? ==> Proper(s, s.calls[c], s.calls[c].phase.decision))
  {
    RunKeepsInv(Init(onTimeout), steps);
    var s := Run(Init(onTimeout), steps);
    forall c | 0 <= c < |s.calls| ensures CallOk(s, s.calls[c]) {
      assert s.calls[c] in s.calls;
    }
    forall id <- s.pending ensures HasRoom(s, s.pending[id].ch) {
      assert EntryOk(s, id, s.pending[id]);
    }
  }

  // ----- No lost wakeup -----

  /** No two calls that are still live use the same id at once. */
  predicate FreshId(s: State, step: Step) {
    step.SendRegister? ==> forall call <- s.calls :: Live(call) ==> call.id != step.id
  }

  predicate FreshRun(s: State, steps: seq<Step>)
    requires CanRun(s, steps)
    decreases |steps|
  {
    |steps| > 0 ==> FreshId(s, steps[0]) && FreshRun(Apply(s, steps[0]), steps[1..])
  }

  /** A call that will look at its channel again. */
  predicate Listening(call: Call) {
    call.phase.Registered? || call.phase.Waiting?
  }

  /** The call's decision is on its way: still pending, in the reader's hands, or buffered. */
  ghost predicate Tracked(s: State, c: nat)
    requires c < |s.calls|
  {
    |s.calls[c].buf| == 1 ||
    (s.calls[c].id in s.pending && s.pending[s.calls[c].id].ch == c) ||
    (s.loop.Dispatching? && s.loop.ch == c)
  }

  ghost predicate WakeInv(s: State) {
    (forall i, j :: 0 <= i < j < |s.calls| && Live(s.calls[i]) && Live(s.calls[j]) ==> s.calls[i].id != s.calls[j].id) &&
    (forall c :: 0 <= c < |s.calls| && Listening(s.calls[c]) ==>
       Tracked(s, c) &&
       (s.calls[c].captured.Some? && s.calls[c].captured.value < s.drained ==> |s.calls[c].buf| == 1))
  }

  lemma RegisterKeepsWakeInv(s: State, id: string, isResponse: bool)
    requires Inv(s) && WakeInv(s) && s.lock.Free? && FreshId(s, SendRegister(id, isResponse))
    ensures WakeInv(Apply(s, SendRegister(id, isResponse)))
  {
    var t := Apply(s, SendRegister(id, isResponse));
    forall i | 0 <= i < |s.calls| ensures Live(s.calls[i]) ==> s.calls[i].id != id {
      assert s.calls[i] in s.calls;
    }
    forall c | 0 <= c < |t.calls| && Listening(t.calls[c])
      ensures Tracked(t, c)
      ensures t.calls[c].captured.Some? && t.calls[c].captured.value < t.drained ==> |t.calls[c].buf| == 1
    {
      if c < |s.calls| { assert t.calls[c] == s.calls[c] && Tracked(s, c); }
    }
  }

  /** A step that changes one call's phase without making it listen again keeps the others tracked. */
  lemma OneCallKeepsWakeInv(s: State, t: State, k: nat)
    requires WakeInv(s) && k < |s.calls| == |t.calls| && t.drained == s.drained && t.loop == s.loop
    requires forall c :: 0 <= c < |s.calls| && c != k ==> t.calls[c] == s.calls[c]
    requires t.calls[k].id == s.calls[k].id && t.calls[k].captured == s.calls[k].captured
    requires Live(t.calls[k]) ==> Live(s.calls[k])
    requires Listening(t.calls[k]) ==> Listening(s.calls[k]) && t.calls[k].buf == s.calls[k].buf && t.pending == s.pending
    requires t.pending == s.pending || (Live(s.calls[k]) && t.pending == s.pending - {s.calls[k].id})
    ensures WakeInv(t)
  {
    forall c | 0 <= c < |t.calls| && Listening(t.calls[c])
      ensures Tracked(t, c)
      ensures t.calls[c].captured.Some? && t.calls[c].captured.value < t.drained ==> |t.calls[c].buf| == 1
    {
      assert Listening(s.calls[c]) && Tracked(s, c);
    }
  }

  lemma SendStepKeepsWakeInv(s: State, step: Step)
    requires Inv(s) && WakeInv(s) && Enabled(s, step) && FreshId(s, step) && SendStep(step)
    ensures WakeInv(Apply(s, step))
  {
    if step.SendRegister? {
      RegisterKeepsWakeInv(s, step.id, step.isResponse);
    } else {
      OneCallKeepsWakeInv(s, Apply(s, step), step.c);
    }
  }

  /** A step of the reader or a drainer leaves phases and ids alone; the calls that listen stay tracked. */
  lemma SameCallsKeepWakeInv(s: State, t: State)
    requires WakeInv(s) && |t.calls| == |s.calls|
    requires forall c :: 0 <= c < |s.calls| ==>
      t.calls[c].id == s.calls[c].id && t.calls[c].phase == s.calls[c].phase && t.calls[c].captured == s.calls[c].captured
    requires forall c :: 0 <= c < |s.calls| && Listening(s.calls[c]) ==>
      Tracked(t, c) && (t.calls[c].captured.Some? && t.calls[c].captured.value < t.drained ==> |t.calls[c].buf| == 1)
    ensures WakeInv(t)
  {
  }

  lemma ChannelStepKeepsWakeInv(s: State, step: Step)
    requires Inv(s) && WakeInv(s) && Enabled(s, step) && ChannelStep(step)
    ensures WakeInv(Apply(s, step))
  {
    var t := Apply(s, step);
    if step.DrainOne? { assert EntryOk(s, step.id, s.pending[step.id]); }
    forall c | 0 <= c < |s.calls| && Listening(s.calls[c])
      ensures Tracked(t, c)
      ensures t.calls[c].captured.Some? && t.calls[c].captured.value < t.drained ==> |t.calls[c].buf| == 1
    {
      assert Tracked(s, c);
      CallAt(s, c);
    }
    SameCallsKeepWakeInv(s, t);
  }

  lemma LoopStepKeepsWakeInv(s: State, step: Step)
    requires Inv(s) && WakeInv(s) && Enabled(s, step) && !SendStep(step) && !ChannelStep(step)
    ensures WakeInv(Apply(s, step))
  {
    var t := Apply(s, step);
    if step.LoopFrame? && step.d.id in s.pending { assert EntryOk(s, step.d.id, s.pending[step.d.id]); }
    assert t.calls == s.calls;
    forall c | 0 <= c < |s.calls| && Listening(s.calls[c])
      ensures Tracked(t, c)
      ensures t.calls[c].captured.Some? && t.calls[c].captured.value < t.drained ==> |t.calls[c].buf| == 1
    {
      assert Tracked(s, c);
      CallAt(s, c);
    }
    SameCallsKeepWakeInv(s, t);
  }

  lemma OtherStepKeepsWakeInv(s: State, step: Step)
    requires Inv(s) && WakeInv(s) && Enabled(s, step) && !SendStep(step)
    ensures WakeInv(Apply(s, step))
  {
    if ChannelStep(step) { ChannelStepKeepsWakeInv(s, step); } else { LoopStepKeepsWakeInv(s, step); }
  }

  lemma {:induction false} RunKeepsWakeInv(s: State, steps: seq<Step>)
    requires Inv(s) && WakeInv(s) && CanRun(s, steps) && FreshRun(s, steps)
    ensures WakeInv(Run(s, steps))
    decreases |steps|
  {
    if |steps| > 0 {
      if SendStep(steps[0]) { SendStepKeepsWakeInv(s, steps[0]); } else { OtherStepKeepsWakeInv(s, steps[0]); }
      StepKeepsInv(s, steps[0]);
      RunKeepsWakeInv(Apply(s, steps[0]), steps[1..]);
    }
  }

  /**
    With ids distinct among live calls, in every interleaving: once `Start` has
    drained a lost connection, every call still waiting that captured it can
    receive its decision at once; the same holds of every waiting call whenever
    `pending` is empty and the reader's hands are empty, as at the end of any drain.
   */
  lemma NoLostWakeup(onTimeout: string, steps: seq<Step>, c: nat)
    requires CanRun(Init(onTimeout), steps) && FreshRun(Init(onTimeout), steps)
    requires InPhase(Run(Init(onTimeout), steps), c, Waiting)
    ensures var s := Run(Init(onTimeout), steps);
      s.calls[c].captured.Some? &&
      ((s.calls[c].captured.value < s.drained || (s.pending == map[] && !s.loop.Dispatching?)) ==>
        Enabled(s, SendReceive(c)) && Proper(s, s.calls[c], s.calls[c].buf[0]))
  {
    var s := Run(Init(onTimeout), steps);
    RunKeepsInv(Init(onTimeout), steps);
    RunKeepsWakeInv(Init(onTimeout), steps);
    WaitingCaptured(Init(onTimeout), steps);
    assert Tracked(s, c);
    CallAt(s, c);
    if |s.calls[c].buf| == 1 { assert s.calls[c].buf[0] in s.calls[c].buf; }
  }

  /** Only a call that captured a connection ever waits. */
  ghost predicate WaitersConnected(s: State) {
    forall call <- s.calls :: call.phase.Waiting? ==> call.captured.Some?
  }

  lemma {:induction false} WaitingCaptured(s: State, steps: seq<Step>)
    requires CanRun(s, steps) && WaitersConnected(s)
    ensures WaitersConnected(Run(s, steps))
    decreases |steps|
  {
    if |steps| > 0 {
      var t := Apply(s, steps[0]);
      forall i | 0 <= i < |t.calls| && t.calls[i].phase.Waiting? ensures t.calls[i].captured.Some? {
        assert i < |s.calls| && s.calls[i] in s.calls;
      }
      WaitingCaptured(t, steps[1..]);
    }
  }

  /** Nothing was sent to the call and nothing can be: no entry and no hand holds its channel. */
  ghost predicate Orphaned(s: State, c: nat) {
    c < |s.calls| && s.calls[c].sent == 0 && |s.calls[c].buf| == 0 &&
    (s.calls[c].id in s.pending ==> s.pending[s.calls[c].id].ch != c) &&
    (s.loop.Dispatching? ==> s.loop.ch != c)
  }

  lemma OtherStepKeepsOrphaned(s: State, c: nat, step: Step)
    requires Inv(s) && Orphaned(s, c) && Enabled(s, step) && !SendStep(step)
    ensures Orphaned(Apply(s, step), c)
  {
    if step.DrainOne? {
      assert EntryOk(s, step.id, s.pending[step.id]);
    } else if step.LoopFrame? && step.d.id in s.pending {
      assert EntryOk(s, step.d.id, s.pending[step.d.id]);
    }
  }

  lemma StepKeepsOrphaned(s: State, c: nat, step: Step)
    requires Inv(s) && Orphaned(s, c) && Enabled(s, step)
    ensures Orphaned(Apply(s, step), c)
  {
    if !SendStep(step) { OtherStepKeepsOrphaned(s, c, step); }
  }

  lemma {:induction false} OrphanStaysOrphaned(s: State, c: nat, steps: seq<Step>)
    requires Inv(s) && Orphaned(s, c) && CanRun(s, steps)
    ensures Orphaned(Run(s, steps), c)
    decreases |steps|
  {
    if |steps| > 0 {
      StepKeepsOrphaned(s, c, steps[0]);
      StepKeepsInv(s, steps[0]);
      OrphanStaysOrphaned(Apply(s, steps[0]), c, steps[1..]);
    }
  }

  /** The step takes the pending entry away from call `c`: a registration or a cleanup under its id. */
  predicate CutsOff(s: State, c: nat, step: Step) {
    c < |s.calls| && s.calls[c].id in s.pending && s.pending[s.calls[c].id].ch == c &&
    ((step.SendRegister? && step.id == s.calls[c].id) ||
     (step.SendCleanup? && step.c < |s.calls| && s.calls[step.c].id == s.calls[c].id))
  }

  lemma RegisterOrphans(s: State, c: nat, id: string, isResponse: bool)
    requires Inv(s) && c < |s.calls| && s.calls[c].sent == 0 && !Orphaned(s, c) && s.lock.Free?
    ensures Orphaned(Apply(s, SendRegister(id, isResponse)), c) <==> CutsOff(s, c, SendRegister(id, isResponse))
  {
    CallAt(s, c);
  }

  lemma CleanupOrphans(s: State, c: nat, k: nat)
    requires Inv(s) && c < |s.calls| && s.calls[c].sent == 0 && !Orphaned(s, c) && Enabled(s, SendCleanup(k))
    ensures Orphaned(Apply(s, SendCleanup(k)), c) <==> CutsOff(s, c, SendCleanup(k))
  {
    CallAt(s, c);
    if s.calls[c].id in s.pending { assert EntryOk(s, s.calls[c].id, s.pending[s.calls[c].id]); }
  }

  lemma SendStepOrphans(s: State, c: nat, step: Step)
    requires Inv(s) && c < |s.calls| && s.calls[c].sent == 0 && !Orphaned(s, c) && Enabled(s, step) && SendStep(step)
    ensures Orphaned(Apply(s, step), c) <==> CutsOff(s, c, step)
  {
    if step.SendRegister? {
      RegisterOrphans(s, c, step.id, step.isResponse);
    } else if step.SendCleanup? {
      CleanupOrphans(s, c, step.c);
    } else {
      var t := Apply(s, step);
      assert t.pending == s.pending && t.loop == s.loop && t.calls[c].id == s.calls[c].id;
      CallAt(s, c);
      assert |s.calls[c].buf| == 0;
    }
  }

  lemma OtherStepOrphansNone(s: State, c: nat, step: Step)
    requires Inv(s) && c < |s.calls| && s.calls[c].sent == 0 && !Orphaned(s, c) && Enabled(s, step) && !SendStep(step)
    ensures !Orphaned(Apply(s, step), c)
  {
    CallAt(s, c);
    if step.DrainOne? { assert EntryOk(s, step.id, s.pending[step.id]); }
    if step.LoopFrame? && step.d.id in s.pending { assert EntryOk(s, step.d.id, s.pending[step.d.id]); }
  }

  /** Of all steps, exactly those orphan a call that was not orphaned before. */
  lemma OnlyCutsOrphan(s: State, c: nat, step: Step)
    requires Inv(s) && c < |s.calls| && s.calls[c].sent == 0 && !Orphaned(s, c) && Enabled(s, step)
    ensures Orphaned(Apply(s, step), c) <==> CutsOff(s, c, step)
  {
    if SendStep(step) { SendStepOrphans(s, c, step); } else { OtherStepOrphansNone(s, c, step); }
  }

  /** Whatever the call returns is a fallback of its own: what policy and kind fix, under its id. */
  ghost predicate OnlyFallback(s: State, c: nat) {
    c < |s.calls| && !Enabled(s, SendReceive(c)) &&
    (s.calls[c].phase.Returned? ==>
       var d := s.calls[c].phase.decision;
       d.fallback != "" && d == FallbackDecision(s.onTimeout, s.calls[c].id, s.calls[c].isResponse, d.fallback))
  }

  lemma OrphanOnlyFallback(s: State, c: nat)
    requires Inv(s) && Orphaned(s, c)
    ensures OnlyFallback(s, c)
  {
    CallAt(s, c);
  }

  /**
    A call is cut off for good: whatever happens after such a step, it never
    receives a decision and can only return a fallback.
   */
  lemma CutOffForGood(onTimeout: string, before: seq<Step>, c: nat, step: Step, after: seq<Step>)
    requires CanRun(Init(onTimeout), before)
    requires var s := Run(Init(onTimeout), before);
      CutsOff(s, c, step) && Enabled(s, step) && CanRun(Apply(s, step), after)
    ensures var t := Run(Apply(Run(Init(onTimeout), before), step), after);
      c < |t.calls| && t.calls[c].buf == [] && t.calls[c].sent == 0 && OnlyFallback(t, c)
  {
    RunKeepsInv(Init(onTimeout), before);
    var s := Run(Init(onTimeout), before);
    assert EntryOk(s, s.calls[c].id, s.pending[s.calls[c].id]);
    CallAt(s, c);
    OnlyCutsOrphan(s, c, step);
    StepKeepsInv(s, step);
    OrphanStaysOrphaned(Apply(s, step), c, after);
    RunKeepsInv(Apply(s, step), after);
    OrphanOnlyFallback(Run(Apply(s, step), after), c);
  }

  /** A `Send` that reuses the id of a call still in `pending` cuts off the older call. */
  lemma ReusedIdLosesWakeup(onTimeout: string, before: seq<Step>, c: nat, isResponse: bool, after: seq<Step>)
    requires CanRun(Init(onTimeout), before)
    requires var s := Run(Init(onTimeout), before);
      c < |s.calls| && s.calls[c].id in s.pending && s.pending[s.calls[c].id].ch == c &&
      Enabled(s, SendRegister(s.calls[c].id, isResponse)) &&
      CanRun(Apply(s, SendRegister(s.calls[c].id, isResponse)), after)
    ensures var s := Run(Init(onTimeout), before);
      var t := Run(Apply(s, SendRegister(s.calls[c].id, isResponse)), after);
      c < |t.calls| && t.calls[c].buf == [] && OnlyFallback(t, c)
  {
    var id := Run(Init(onTimeout), before).calls[c].id;
    CutOffForGood(onTimeout, before, c, SendRegister(id, isResponse), after);
  }

  /** The cleanup of an older call that gave up cuts off a newer one registered under its id. */
  lemma LateCleanupLosesWakeup(onTimeout: string, before: seq<Step>, older: nat, newer: nat, after: seq<Step>)
    requires CanRun(Init(onTimeout), before)
    requires var s := Run(Init(onTimeout), before);
      older < newer < |s.calls| && s.calls[older].id == s.calls[newer].id && Enabled(s, SendCleanup(older)) &&
      s.calls[newer].id in s.pending && s.pending[s.calls[newer].id].ch == newer &&
      CanRun(Apply(s, SendCleanup(older)), after)
    ensures var t := Run(Apply(Run(Init(onTimeout), before), SendCleanup(older)), after);
      newer < |t.calls| && t.calls[newer].buf == [] && OnlyFallback(t, newer)
  {
    CutOffForGood(onTimeout, before, newer, SendCleanup(older), after);
  }

  /** While ids are fresh, the only step that cuts off a listening call is a registration that reuses its id. */
  lemma CutOffNeedsReuse(onTimeout: string, before: seq<Step>, c: nat, step: Step)
    requires CanRun(Init(onTimeout), before) && FreshRun(Init(onTimeout), before)
    requires var s := Run(Init(onTimeout), before);
      CutsOff(s, c, step) && Enabled(s, step) && Listening(s.calls[c])
    ensures step.SendRegister? && !FreshId(Run(Init(onTimeout), before), step)
  {
    var s := Run(Init(onTimeout), before);
    RunKeepsInv(Init(onTimeout), before);
    RunKeepsWakeInv(Init(onTimeout), before);
    assert s.calls[c] in s.calls;
    assert forall k :: 0 <= k < |s.calls| && k != c && Live(s.calls[k]) ==> s.calls[k].id != s.calls[c].id;
  }

  lemma RunCons(s: State, step: Step, rest: seq<Step>)
    requires Enabled(s, step) && CanRun(Apply(s, step), rest)
    ensures CanRun(s, [step] + rest) && Run(s, [step] + rest) == Run(Apply(s, step), rest)
  {
    assert ([step] + rest)[1..] == rest;
  }

  /** A call nothing was sent to yet, and that is not orphaned, can still be served: orphaned is exactly beyond reach. */
  lemma NotOrphanedCanBeServed(s: State, c: nat) returns (steps: seq<Step>)
    requires Inv(s) && c < |s.calls| && s.calls[c].sent == 0 && !Orphaned(s, c)
    ensures CanRun(s, steps) && c < |Run(s, steps).calls| && |Run(s, steps).calls[c].buf| == 1
  {
    CallAt(s, c);
    if s.loop.Dispatching? && s.loop.ch == c {
      RunCons(s, LoopDeliver, []);
      steps := [LoopDeliver] + [];
    } else {
      assert EntryOk(s, s.calls[c].id, s.pending[s.calls[c].id]);
      if !s.lock.Free? {
        RunCons(s, DrainOne(s.calls[c].id), []);
        steps := [DrainOne(s.calls[c].id)] + [];
      } else if s.closer.Idle? {
        var rest := ServedByClose(Apply(s, CloseCancel), c);
        RunCons(s, CloseCancel, rest);
        steps := [CloseCancel] + rest;
      } else {
        steps := ServedByClose(s, c);
      }
    }
  }

  /** With the mutex free and the client closing, the drain of `Close` reaches a pending call. */
  lemma ServedByClose(s: State, c: nat) returns (steps: seq<Step>)
    requires c < |s.calls| && s.calls[c].id in s.pending && s.pending[s.calls[c].id].ch == c
    requires s.calls[c].buf == [] && s.lock.Free? && s.closer.Cancelled?
    ensures CanRun(s, steps) && c < |Run(s, steps).calls| && |Run(s, steps).calls[c].buf| == 1
  {
    var d, t := DrainOne(s.calls[c].id), Apply(s, CloseDrainBegin);
    RunCons(t, d, []);
    RunCons(s, CloseDrainBegin, [d] + []);
    steps := [CloseDrainBegin] + ([d] + []);
  }

  // ----- The mutex is always released and every Send can finish -----

  /** `t` is `s` after a drain: one fallback on each pending channel, every other call untouched. */
  ghost predicate DrainedOf(s: State, t: State) {
    |t.calls| == |s.calls| &&
    (forall id <- s.pending :: s.pending[id].ch < |s.calls| && t.calls[s.pending[id].ch].buf ==
       [FallbackDecision(s.onTimeout, id, s.pending[id].isResponse, "disconnected")]) &&
    (forall c :: 0 <= c < |s.calls| && (forall id <- s.pending :: s.pending[id].ch != c) ==> t.calls[c] == s.calls[c])
  }

  /** Draining one entry touches the channel of that entry only, and no other entry has it. */
  lemma DrainOneEffect(s: State, id: string)
    requires Inv(s) && Enabled(s, DrainOne(id))
    ensures var t := Apply(s, DrainOne(id)); var e := s.pending[id];
      Inv(t) && t.pending == s.pending - {id} && |t.pending| == |s.pending| - 1 && t.lock == s.lock &&
      t.onTimeout == s.onTimeout && e.ch < |s.calls| == |t.calls| &&
      t.calls[e.ch].buf == [FallbackDecision(s.onTimeout, id, e.isResponse, "disconnected")] &&
      (forall c :: 0 <= c < |s.calls| && c != e.ch ==> t.calls[c] == s.calls[c]) &&
      forall k <- s.pending :: s.pending[k].ch < |s.calls| && (k != id ==> s.pending[k].ch != e.ch)
  {
    var t := Apply(s, DrainOne(id));
    forall k <- s.pending ensures s.pending[k].ch < |s.calls| && (k != id ==> s.pending[k].ch != s.pending[id].ch) {
      assert EntryOk(s, k, s.pending[k]) && EntryOk(s, id, s.pending[id]);
    }
    CallAt(s, s.pending[id].ch);
    StepKeepsInv(s, DrainOne(id));
    assert t.pending.Keys == s.pending.Keys - {id};
  }

  lemma DrainOneThenRest(s: State, id: string, u: State)
    requires Inv(s) && Enabled(s, DrainOne(id)) && DrainedOf(Apply(s, DrainOne(id)), u)
    ensures DrainedOf(s, u)
  {
    DrainOneEffect(s, id);
    DrainedComposes(s, id, Apply(s, DrainOne(id)), u);
  }

  /** The same of any state that differs from `s` as that step makes it differ. */
  lemma DrainedComposes(s: State, id: string, t: State, u: State)
    requires id in s.pending && DrainedOf(t, u) && t.pending == s.pending - {id} && t.onTimeout == s.onTimeout
    requires var ch := s.pending[id].ch;
      ch < |s.calls| == |t.calls| &&
      t.calls[ch].buf == [FallbackDecision(s.onTimeout, id, s.pending[id].isResponse, "disconnected")] &&
      (forall c :: 0 <= c < |s.calls| && c != ch ==> t.calls[c] == s.calls[c]) &&
      forall k <- s.pending :: s.pending[k].ch < |s.calls| && (k != id ==> s.pending[k].ch != ch)
    ensures DrainedOf(s, u)
  {
    forall k <- s.pending
      ensures u.calls[s.pending[k].ch].buf == [FallbackDecision(s.onTimeout, k, s.pending[k].isResponse, "disconnected")]
    {
      if k != id {
        assert k in t.pending && t.pending[k] == s.pending[k];
      } else {
        assert forall j <- t.pending :: j in s.pending && j != id && t.pending[j].ch != s.pending[id].ch;
        assert u.calls[s.pending[id].ch] == t.calls[s.pending[id].ch];
      }
    }
    forall c | 0 <= c < |s.calls| && (forall k <- s.pending :: s.pending[k].ch != c) ensures u.calls[c] == s.calls[c] {
      forall k <- t.pending ensures t.pending[k].ch != c { assert k in s.pending; }
    }
  }

  /** A drainer holding the mutex needs exactly one step per entry and one to unlock. */
  lemma DrainReleasesMutex(s: State) returns (steps: seq<Step>)
    requires Inv(s) && !s.lock.Free?
    ensures CanRun(s, steps) && |steps| == |s.pending| + 1
    ensures Run(s, steps).lock.Free? && Run(s, steps).pending == map[] && DrainedOf(s, Run(s, steps))
    decreases |s.pending|
  {
    if s.pending == map[] {
      var last := if s.lock.HeldByLoop? then LoopDrainEnd else CloseDrainEnd;
      RunCons(s, last, []);
      steps := [last] + [];
    } else {
      var id :| id in s.pending;
      assert EntryOk(s, id, s.pending[id]);
      CallAt(s, s.pending[id].ch);
      DrainOneEffect(s, id);
      var t := Apply(s, DrainOne(id));
      var rest := DrainReleasesMutex(t);
      RunCons(s, DrainOne(id), rest);
      DrainOneThenRest(s, id, Run(t, rest));
      steps := [DrainOne(id)] + rest;
    }
  }

  /** The next step call `c` takes alone on its way to return, giving up if it must. */
  function OwnStep(s: State, c: nat): Step
    requires c < |s.calls| && !s.calls[c].phase.Returned?
  {
    match s.calls[c].phase
    case Cleaned(_) => SendFallback(c)
    case Leaving(_) => SendCleanup(c)
    case Waiting => if |s.calls[c].buf| > 0 then SendReceive(c) else SendExpire(c, "timeout")
    case Registered => SendGiveUp(c, if s.calls[c].captured.None? then "disconnected" else "write_error")
  }

  /** How many own steps are left. */
  function StepsLeft(call: Call): nat {
    match call.phase
    case Returned(_) => 0
    case Cleaned(_) => 1
    case Leaving(_) => 2
    case Waiting => if |call.buf| > 0 then 1 else 3
    case Registered => 3
  }

  /** An own step is enabled whenever the mutex is free, and strictly nears the return. */
  lemma OwnStepNears(s: State, c: nat)
    requires c < |s.calls| && s.lock.Free? && !s.calls[c].phase.Returned?
    ensures Enabled(s, OwnStep(s, c)) && SendStep(OwnStep(s, c))
    ensures var t := Apply(s, OwnStep(s, c));
      t.lock.Free? && |t.calls| == |s.calls| && StepsLeft(t.calls[c]) < StepsLeft(s.calls[c])
  {
  }

  lemma OwnStepProgress(s: State, c: nat)
    requires Inv(s) && c < |s.calls| && s.lock.Free? && !s.calls[c].phase.Returned?
    ensures Enabled(s, OwnStep(s, c))
    ensures var t := Apply(s, OwnStep(s, c));
      Inv(t) && t.lock.Free? && |t.calls| == |s.calls| && StepsLeft(t.calls[c]) < StepsLeft(s.calls[c])
  {
    OwnStepNears(s, c);
    SendStepKeepsInv(s, OwnStep(s, c));
  }

  /** Whenever the mutex is free, any call can return by its own steps alone, with a decision of its own. */
  lemma {:induction false} SendCanFinish(s: State, c: nat) returns (steps: seq<Step>)
    requires Inv(s) && c < |s.calls| && s.lock.Free?
    ensures CanRun(s, steps) && |steps| <= StepsLeft(s.calls[c])
    ensures var t := Run(s, steps);
      |t.calls| == |s.calls| && t.calls[c].phase.Returned? && Proper(t, t.calls[c], t.calls[c].phase.decision)
    decreases StepsLeft(s.calls[c])
  {
    if s.calls[c].phase.Returned? {
      CallAt(s, c);
      steps := [];
    } else {
      OwnStepProgress(s, c);
      var t := Apply(s, OwnStep(s, c));
      var rest := SendCanFinish(t, c);
      steps := [OwnStep(s, c)] + rest;
      assert steps[1..] == rest;
    }
  }

  // ----- What Send returns, in plain terms -----

  lemma {:induction false} PolicyKept(s: State, steps: seq<Step>)
    requires CanRun(s, steps)
    ensures Run(s, steps).onTimeout == s.onTimeout
    decreases |steps|
  {
    if |steps| > 0 { PolicyKept(Apply(s, steps[0]), steps[1..]); }
  }

  /** Why a fallback can be made. */
  predicate KnownReason(why: string) {
    why == "disconnected" || why == "marshal_error" || why == "write_error" || why == "timeout" || why == "context_cancelled"
  }

  predicate ReasonOk(d: Decision) { d.fallback == "" || KnownReason(d.fallback) }

  ghost predicate ReasonsOk(call: Call) {
    (forall d <- call.buf :: ReasonOk(d)) && (call.phase.Returned? ==> ReasonOk(call.phase.decision)) &&
    (call.phase.Leaving? || call.phase.Cleaned? ==> KnownReason(call.phase.reason))
  }

  ghost predicate AllReasonsOk(s: State) { forall call <- s.calls :: ReasonsOk(call) }

  /** A step that touches one call keeps the others' reasons. */
  lemma OneCallsReasons(s: State, t: State, c: nat)
    requires AllReasonsOk(s) && c < |s.calls| == |t.calls| && t.calls == s.calls[c := t.calls[c]]
    requires ReasonsOk(t.calls[c])
    ensures AllReasonsOk(t)
  {
    forall call <- t.calls ensures ReasonsOk(call) {
      var i :| 0 <= i < |t.calls| && t.calls[i] == call;
      if i != c { assert s.calls[i] == call; }
    }
  }

  lemma StepKeepsReasons(s: State, step: Step)
    requires Inv(s) && AllReasonsOk(s) && Enabled(s, step)
    ensures AllReasonsOk(Apply(s, step))
  {
    var t := Apply(s, step);
    if step.SendRegister? {
      assert t.calls == s.calls + [Call(step.id, step.isResponse, s.transport, Registered, [], 0)];
    } else if SendStep(step) {
      assert ReasonsOk(s.calls[step.c]);
      if step.SendReceive? { assert s.calls[step.c].buf[0] in s.calls[step.c].buf; }
      OneCallsReasons(s, t, step.c);
    } else if step.LoopDeliver? {
      assert ReasonsOk(s.calls[s.loop.ch]);
      OneCallsReasons(s, t, s.loop.ch);
    } else if step.DrainOne? {
      assert ReasonsOk(s.calls[s.pending[step.id].ch]);
      OneCallsReasons(s, t, s.pending[step.id].ch);
    }
  }

  lemma {:induction false} RunKeepsReasons(s: State, steps: seq<Step>)
    requires Inv(s) && AllReasonsOk(s) && CanRun(s, steps)
    ensures AllReasonsOk(Run(s, steps))
    decreases |steps|
  {
    if |steps| > 0 {
      StepKeepsReasons(s, steps[0]);
      StepKeepsInv(s, steps[0]);
      RunKeepsReasons(Apply(s, steps[0]), steps[1..]);
    }
  }

  /** A local decision: under "allow" it lets the exchange pass untouched, else it ends it with 403 or 502. */
  predicate LocalDecision(onTimeout: string, isResponse: bool, d: Decision) {
    KnownReason(d.fallback) && d.body.None? && d.headers == [] && d.tags == map[] &&
    (onTimeout == "allow" && isResponse ==> d.action == "passthrough" && d.statusCode == 0) &&
    (onTimeout == "allow" && !isResponse ==> d.action == "allow" && d.statusCode == 0) &&
    (onTimeout != "allow" && isResponse ==> d.action == "block" && d.statusCode == 502) &&
    (onTimeout != "allow" && !isResponse ==> d.action == "deny" && d.statusCode == 403)
  }

  /**
    After any interleaving from the start, whatever a Send returned bears its own
    id, and is either a decision the middleware sent or the local one that the
    policy the client was made with and the kind of the message fix.
   */
  lemma WhatSendReturns(onTimeout: string, steps: seq<Step>, c: nat)
    requires CanRun(Init(onTimeout), steps) && InPhaseReturned(Run(Init(onTimeout), steps), c)
    ensures var call := Run(Init(onTimeout), steps).calls[c];
      call.phase.decision.id == call.id &&
      (call.phase.decision.fallback != "" ==> LocalDecision(onTimeout, call.isResponse, call.phase.decision))
  {
    var s := Run(Init(onTimeout), steps);
    RunKeepsInv(Init(onTimeout), steps);
    RunKeepsReasons(Init(onTimeout), steps);
    PolicyKept(Init(onTimeout), steps);
    CallAt(s, c);
    assert ReasonsOk(s.calls[c]);
  }

  predicate InPhaseReturned(s: State, c: nat) { c < |s.calls| && s.calls[c].phase.Returned? }

  /**
    A waiting call whose timer fires takes three steps of its own to return: the
    local decision with the reason "timeout", its entry gone from `pending`.
   */
  lemma TimeoutReturnsFallback(s: State, c: nat)
    requires Inv(s) && InPhase(s, c, Waiting) && s.lock.Free?
    ensures var steps := [SendExpire(c, "timeout"), SendCleanup(c), SendFallback(c)];
      CanRun(s, steps) && InPhaseReturned(Run(s, steps), c) && s.calls[c].id !in Run(s, steps).pending &&
      Run(s, steps).calls[c].phase.decision.fallback == "timeout" && Run(s, steps).calls[c].phase.decision.id == s.calls[c].id &&
      LocalDecision(s.onTimeout, s.calls[c].isResponse, Run(s, steps).calls[c].phase.decision)
  {
    var a, b, d := SendExpire(c, "timeout"), SendCleanup(c), SendFallback(c);
    var s1 := Apply(s, a);
    var s2 := Apply(s1, b);
    var s3 := Apply(s2, d);
    assert [a, b, d][1..] == [b, d] && [b, d][1..] == [d] && [d][1..] == [];
    assert CanRun(s3, []) && Run(s3, []) == s3;
    assert CanRun(s2, [d]) && Run(s2, [d]) == s3;
    assert CanRun(s1, [b, d]) && Run(s1, [b, d]) == s3;
  }
}
