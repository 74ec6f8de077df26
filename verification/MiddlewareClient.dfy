/**
  The middleware client's own fields and the critical sections that update them,
  each proved to be a step (or, for the drain loop, a run of steps) of the protocol.
 */
module MiddlewareClient {
  import opened Common
  import opened MiddlewareTypes
  import opened MiddlewareProtocol

  lemma {:induction false} RunAppend(s: State, steps: seq<Step>, last: Step)
    requires CanRun(s, steps) && Enabled(Run(s, steps), last)
    ensures CanRun(s, steps + [last])
    ensures Run(s, steps + [last]) == Apply(Run(s, steps), last)
    decreases |steps|
  {
    if |steps| == 0 {
      assert steps + [last] == [last];
      assert Run(s, [last]) == Run(Apply(s, last), []);
    } else {
      RunAppend(Apply(s, steps[0]), steps[1..], last);
      assert (steps + [last])[1..] == steps[1..] + [last];
    }
  }

  /** `s` was reached from `start` by draining: finishing from `s` finishes the drain of `start`. */
  ghost predicate PartlyDrained(start: State, s: State, steps: seq<Step>) {
    CanRun(start, steps) && Run(start, steps) == s && Inv(s) && s.lock.HeldByLoop? &&
    forall u :: DrainedOf(s, u) ==> DrainedOf(start, u)
  }

  lemma PartlyDrainedOneMore(start: State, s: State, steps: seq<Step>, id: string)
    requires PartlyDrained(start, s, steps) && Enabled(s, DrainOne(id))
    ensures PartlyDrained(start, Apply(s, DrainOne(id)), steps + [DrainOne(id)])
  {
    RunAppend(start, steps, DrainOne(id));
    StepKeepsInv(s, DrainOne(id));
    forall u | DrainedOf(Apply(s, DrainOne(id)), u) ensures DrainedOf(start, u) {
      DrainOneThenRest(s, id, u);
    }
  }

  /** A whole drain by `Start`, from taking the mutex to releasing it. */
  lemma DrainCompleted(start: State, s: State, steps: seq<Step>) returns (all: seq<Step>)
    requires Inv(start) && Enabled(start, LoopDrainBegin) && s.pending == map[]
    requires PartlyDrained(Apply(start, LoopDrainBegin), s, steps)
    ensures CanRun(start, all) && Run(start, all) == Apply(s, LoopDrainEnd)
    ensures Inv(Run(start, all)) && DrainedOf(start, Run(start, all))
  {
    var locked := Apply(start, LoopDrainBegin);
    RunAppend(locked, steps, LoopDrainEnd);
    StepKeepsInv(s, LoopDrainEnd);
    all := [LoopDrainBegin] + (steps + [LoopDrainEnd]);
    assert all[1..] == steps + [LoopDrainEnd];
    var t := Apply(s, LoopDrainEnd);
    assert DrainedOf(s, t);
    assert DrainedOf(locked, t);
    assert DrainedOf(start, t);
  }

  /** One frame: nothing happens for an unknown id; for a known one its entry goes and its channel gets the frame. */
  lemma FrameSteps(s: State, d: Decision) returns (steps: seq<Step>)
    requires Inv(s) && Enabled(s, LoopFrame(d))
    ensures CanRun(s, steps) && Inv(Run(s, steps))
    ensures d.id !in s.pending ==> Run(s, steps) == s
    ensures d.id in s.pending ==> (var ch := s.pending[d.id].ch;
      ch < |s.calls| && s.calls[ch].buf == [] &&
      Run(s, steps) == s.(pending := s.pending - {d.id},
                          calls := s.calls[ch := s.calls[ch].(buf := s.calls[ch].buf + [d], sent := s.calls[ch].sent + 1)]))
  {
    var mid := Apply(s, LoopFrame(d));
    StepKeepsInv(s, LoopFrame(d));
    if d.id in s.pending {
      assert EntryOk(s, d.id, s.pending[d.id]);
      CallAt(s, s.pending[d.id].ch);
      StepKeepsInv(mid, LoopDeliver);
      RunCons(mid, LoopDeliver, []);
      RunCons(s, LoopFrame(d), [LoopDeliver] + []);
      steps := [LoopFrame(d)] + ([LoopDeliver] + []);
    } else {
      RunCons(s, LoopFrame(d), []);
      steps := [LoopFrame(d)] + [];
    }
  }

  class Client {
    const onTimeout: string
    var transport: Option<nat>
    var pending: map<string, PendingEntry>
    // The channels of the Send calls made so far, and each call's position.
    var calls: seq<Call>
    // Positions of the goroutines that share the client.
    ghost var lock: Lock
    ghost var loop: LoopPhase
    ghost var closer: CloserPhase
    ghost var cancelled: bool
    ghost var conns: nat
    ghost var drained: nat

    ghost function View(): State
      reads this
    {
      State(onTimeout, lock, transport, pending, calls, loop, closer, cancelled, conns, drained)
    }

    /** `New`: an empty policy means "deny". */
    constructor (onDisconnect: string)
      ensures View() == Init(if onDisconnect == "" then "deny" else onDisconnect)
    {
      onTimeout := if onDisconnect == "" then "deny" else onDisconnect;
      transport := None;
      pending := map[];
      calls := [];
      lock, loop, closer, cancelled, conns, drained := Free, Dialing, Idle, false, 0, 0;
    }

    /** The critical section that opens `Send`: read the transport, store the entry. */
    method Register(id: string, isResponse: bool) returns (c: nat, captured: Option<nat>)
      requires Enabled(View(), SendRegister(id, isResponse))
      modifies this
      ensures View() == Apply(old(View()), SendRegister(id, isResponse))
      ensures c == |old(calls)| && captured == transport
    {
      c, captured := |calls|, transport;
      calls := calls + [Call(id, isResponse, transport, Registered, [], 0)];
      pending := pending[id := PendingEntry(c, isResponse)];
    }

    /** The `cleanup` closure of `Send`. */
    method Cleanup(c: nat)
      requires Enabled(View(), SendCleanup(c))
      modifies this
      ensures View() == Apply(old(View()), SendCleanup(c))
    {
      pending := pending - {calls[c].id};
      calls := calls[c := calls[c].(phase := Cleaned(calls[c].phase.reason))];
    }

    /** One well-formed frame in the read loop: take the entry out under the mutex, then send. */
    method Dispatch(d: Decision) returns (known: bool, ghost steps: seq<Step>)
      requires Inv(View()) && Enabled(View(), LoopFrame(d))
      modifies this
      ensures CanRun(old(View()), steps) && Run(old(View()), steps) == View()
      ensures Inv(View()) && loop.Reading?
      ensures known == (d.id in old(pending))
      ensures known ==> old(pending)[d.id].ch < |calls| && calls[old(pending)[d.id].ch].buf == [d]
      ensures !known ==> View() == old(View())
    {
      known := d.id in pending;
      steps := FrameSteps(View(), d);
      if known {
        var entry := pending[d.id];
        pending := pending - {d.id};
        calls := calls[entry.ch := calls[entry.ch].(buf := calls[entry.ch].buf + [d], sent := calls[entry.ch].sent + 1)];
      }
    }

    /** One iteration of `drainPending`: send the fallback, delete the entry. */
    method DrainEntry(id: string)
      requires Inv(View()) && id in pending && lock.HeldByLoop?
      modifies `calls, `pending
      ensures Enabled(old(View()), DrainOne(id)) && View() == Apply(old(View()), DrainOne(id))
      ensures Inv(View()) && |pending| == |old(pending)| - 1
    {
      var entry := pending[id];
      assert EntryOk(View(), id, entry);
      CallAt(View(), entry.ch);
      StepKeepsInv(View(), DrainOne(id));
      var d := FallbackDecision(onTimeout, id, entry.isResponse, "disconnected");
      calls := calls[entry.ch := calls[entry.ch].(buf := calls[entry.ch].buf + [d], sent := calls[entry.ch].sent + 1)];
      pending := pending - {id};
      assert pending.Keys == old(pending).Keys - {id};
    }

    /** The loop of `drainPending`, with the mutex held: every entry is sent its fallback and leaves the map. */
    method DrainEntries() returns (ghost steps: seq<Step>)
      requires Inv(View()) && lock.HeldByLoop?
      modifies `calls, `pending
      ensures pending == map[] && PartlyDrained(old(View()), View(), steps)
    {
      steps := [];
      while pending != map[]
        invariant PartlyDrained(old(View()), View(), steps)
        decreases |pending|
      {
        var id :| id in pending;
        ghost var before := View();
        DrainEntry(id);
        PartlyDrainedOneMore(old(View()), before, steps, id);
        steps := steps + [DrainOne(id)];
      }
    }

    /**
      `drainPending` as `Start` calls it after a lost connection: every entry
      gets its fallback and leaves the map, and the connection counts as drained.
     */
    method DrainPending() returns (ghost steps: seq<Step>)
      requires Inv(View()) && Enabled(View(), LoopDrainBegin)
      modifies this
      ensures CanRun(old(View()), steps) && Run(old(View()), steps) == View()
      ensures Inv(View()) && pending == map[] && lock.Free? && drained == conns
      ensures DrainedOf(old(View()), View())
    {
      ghost var start := View();
      StepKeepsInv(start, LoopDrainBegin);
      lock, loop := HeldByLoop, LoopDraining;
      assert View() == Apply(start, LoopDrainBegin);
      steps := DrainEntries();
      ghost var last := View();
      assert Enabled(last, LoopDrainEnd);
      steps := DrainCompleted(start, last, steps);
      lock, loop, drained := Free, Backoff, conns;
      assert View() == Apply(last, LoopDrainEnd);
    }
  }
}
