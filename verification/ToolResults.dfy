/**
  Which result a tool call ends up with: a round as a sequence of calls and
  results, run through the pending map, against a direct reading of the sequence.
 */
module ToolResults {
  import opened Common

  datatype Outcome = Outcome(preview: string, isError: bool)

  datatype Event = Call(id: string) | Result(id: string, outcome: Outcome)

  /** A call seen so far: the event that made it, its id and the result it carries. */
  datatype Slot = Slot(at: nat, id: string, result: Option<Outcome>)

  // ----- The pending map, as the code runs it -----

  /** The slot pending under an id: the last call with it; -1 when there is none, and never for an empty id. */
  function Pending(slots: seq<Slot>, id: string): (k: int)
    ensures -1 <= k < |slots|
    ensures k >= 0 ==> id != "" && slots[k].id == id
    ensures k < 0 && id != "" ==> forall i :: 0 <= i < |slots| ==> slots[i].id != id
    ensures id != "" ==> forall i :: k < i < |slots| ==> slots[i].id != id
  {
    if |slots| == 0 || id == "" then -1
    else if slots[|slots| - 1].id == id then |slots| - 1
    else Pending(slots[..|slots| - 1], id)
  }

  /** A call becomes pending; a result goes to the pending call with its id. */
  function Next(slots: seq<Slot>, at: nat, e: Event): seq<Slot> {
    match e
    case Call(id) => slots + [Slot(at, id, None)]
    case Result(id, outcome) =>
      var k := Pending(slots, id);
      if k < 0 then slots else slots[k := slots[k].(result := Some(outcome))]
  }

  function Run(events: seq<Event>): seq<Slot> {
    if |events| == 0 then [] else Next(Run(events[..|events| - 1]), |events| - 1, events[|events| - 1])
  }

  // ----- The direct reading -----

  /** The first position from `from` on where the id is called again, else the end. */
  function Reused(events: seq<Event>, id: string, from: nat): (r: nat)
    requires from <= |events|
    ensures from <= r <= |events|
    ensures r < |events| ==> events[r] == Call(id)
    ensures forall i :: from <= i < r ==> events[i] != Call(id)
    decreases |events| - from
  {
    if from == |events| || events[from] == Call(id) then from else Reused(events, id, from + 1)
  }

  /** The last result with the id between two positions. */
  function LastResult(events: seq<Event>, id: string, from: nat, end: nat): Option<Outcome>
    requires end <= |events|
  {
    if end <= from then None
    else if events[end - 1].Result? && events[end - 1].id == id then Some(events[end - 1].outcome)
    else LastResult(events, id, from, end - 1)
  }

  /** What the call at position `p` should carry. */
  function Carries(events: seq<Event>, p: nat): Option<Outcome>
    requires p < |events| && events[p].Call?
  {
    var id := events[p].id;
    if id == "" then None else LastResult(events, id, p + 1, Reused(events, id, p + 1))
  }

  // ----- The two agree -----

  /** Slots are the calls, in order. */
  ghost predicate Tracks(events: seq<Event>, slots: seq<Slot>) {
    (forall i :: 0 <= i < |slots| ==> slots[i].at < |events| && events[slots[i].at] == Call(slots[i].id)) &&
    (forall i, j :: 0 <= i < j < |slots| ==> slots[i].at < slots[j].at) &&
    (forall p :: 0 <= p < |events| && events[p].Call? ==> exists i :: 0 <= i < |slots| && slots[i].at == p)
  }

  lemma {:induction false} RunTracks(events: seq<Event>)
    ensures Tracks(events, Run(events))
    decreases |events|
  {
    if |events| > 0 {
      var n := |events| - 1;
      RunTracks(events[..n]);
      TracksNext(events, Run(events[..n]), n);
      RunStep(events);
    }
  }

  lemma RunStep(events: seq<Event>)
    requires |events| > 0
    ensures var n := |events| - 1; Run(events) == Next(Run(events[..n]), n, events[n])
  {
  }

  lemma TracksNext(events: seq<Event>, slots: seq<Slot>, n: nat)
    requires |events| == n + 1 && Tracks(events[..n], slots)
    ensures Tracks(events, Next(slots, n, events[n]))
  {
    var more := Next(slots, n, events[n]);
    forall i | 0 <= i < |slots| ensures i < |more| && more[i].at == slots[i].at < n && more[i].id == slots[i].id {
      NextAt(slots, n, events[n], i);
    }
    forall i | 0 <= i < |more| ensures more[i].at < |events| && events[more[i].at] == Call(more[i].id) {
      if i < |slots| { assert events[..n][slots[i].at] == events[slots[i].at]; }
    }
    forall p | 0 <= p < |events| && events[p].Call? ensures exists i :: 0 <= i < |more| && more[i].at == p {
      if p < n {
        assert events[..n][p].Call?;
        var i :| 0 <= i < |slots| && slots[i].at == p;
        assert more[i].at == p;
      } else {
        assert more[|slots|].at == p;
      }
    }
  }

  lemma {:induction false} LastResultSame(a: seq<Event>, b: seq<Event>, id: string, from: nat, end: nat)
    requires end <= |a| && end <= |b| && a[..end] == b[..end]
    ensures LastResult(a, id, from, end) == LastResult(b, id, from, end)
    decreases end
  {
    if end > from {
      assert a[end - 1] == a[..end][end - 1] && b[end - 1] == b[..end][end - 1];
      assert a[..end - 1] == a[..end][..end - 1] && b[..end - 1] == b[..end][..end - 1];
      LastResultSame(a, b, id, from, end - 1);
    }
  }

  /** One more event moves the end of a call's span only when the call is still the last with its id. */
  lemma ReusedNext(events: seq<Event>, n: nat, id: string, from: nat)
    requires |events| == n + 1 && from <= n
    ensures var r, was := Reused(events, id, from), Reused(events[..n], id, from);
      r == (if n > was || events[n] == Call(id) then was else n + 1)
  {
    var r, was := Reused(events, id, from), Reused(events[..n], id, from);
    forall i | from <= i < was ensures events[i] != Call(id) { assert events[..n][i] == events[i]; }
    if was < n { assert events[..n][was] == events[was]; }
    assert forall i :: from <= i < r && i < n ==> events[..n][i] != Call(id);
  }

  /** A call is pending exactly when its id is not used again. */
  lemma PendingIsUnused(events: seq<Event>, slots: seq<Slot>, i: nat)
    requires Tracks(events, slots) && i < |slots| && slots[i].id != ""
    ensures Pending(slots, slots[i].id) == i <==> Reused(events, slots[i].id, slots[i].at + 1) == |events|
  {
    var id := slots[i].id;
    var k, r := Pending(slots, id), Reused(events, id, slots[i].at + 1);
    if r < |events| {
      var j :| 0 <= j < |slots| && slots[j].at == r;
      assert j > i && slots[j].id == id;
    } else {
      forall j | i < j < |slots| ensures slots[j].id != id {
        assert slots[i].at < slots[j].at && events[slots[j].at] == Call(slots[j].id);
      }
    }
  }

  /** Slot `i` carries what its call should. */
  ghost predicate CarriedAt(events: seq<Event>, slots: seq<Slot>, i: nat)
    requires i < |slots|
  {
    var s := slots[i];
    s.at < |events| && events[s.at] == Call(s.id) && s.result == Carries(events, s.at)
  }

  /** What one more event changes for the call at `p`: only a result with its id, while the id is unused since. */
  lemma CarriesGrows(events: seq<Event>, n: nat, p: nat)
    requires |events| == n + 1 && p < n && events[p].Call? && events[p].id != ""
    ensures events[..n][p] == events[p]
    ensures var id, old_ := events[p].id, events[..n];
      Carries(events, p) ==
        if Reused(old_, id, p + 1) == n && events[n].Result? && events[n].id == id then Some(events[n].outcome)
        else Carries(old_, p)
  {
    var id, old_ := events[p].id, events[..n];
    assert old_[p] == events[p];
    var was := Reused(old_, id, p + 1);
    ReusedNext(events, n, id, p + 1);
    LastResultSame(events, old_, id, p + 1, was);
  }

  /** One more event changes what a slot carries exactly as the pending map does. */
  lemma CarriesNext(events: seq<Event>, n: nat, slots: seq<Slot>, i: nat)
    requires |events| == n + 1 && Tracks(events[..n], slots) && i < |slots|
    requires CarriedAt(events[..n], slots, i)
    ensures i < |Next(slots, n, events[n])| && CarriedAt(events, Next(slots, n, events[n]), i)
  {
    var s := slots[i];
    assert events[..n][s.at] == events[s.at];
    if s.id != "" {
      PendingIsUnused(events[..n], slots, i);
      CarriesGrows(events, n, s.at);
    }
    NextAt(slots, n, events[n], i);
  }

  /** What one more event does to a slot. */
  lemma NextAt(slots: seq<Slot>, at: nat, e: Event, i: nat)
    requires i < |slots|
    ensures i < |Next(slots, at, e)|
    ensures Next(slots, at, e)[i] ==
            if e.Result? && Pending(slots, e.id) == i then slots[i].(result := Some(e.outcome)) else slots[i]
  {
  }

  lemma AllCarryNext(events: seq<Event>, n: nat, slots: seq<Slot>)
    requires |events| == n + 1 && Tracks(events[..n], slots)
    requires forall i :: 0 <= i < |slots| ==> CarriedAt(events[..n], slots, i)
    ensures forall i :: 0 <= i < |Next(slots, n, events[n])| ==> CarriedAt(events, Next(slots, n, events[n]), i)
  {
    forall i | 0 <= i < |Next(slots, n, events[n])| ensures CarriedAt(events, Next(slots, n, events[n]), i) {
      if i < |slots| { CarriesNext(events, n, slots, i); }
    }
  }

  /**
    Each call carries the last result with its id that came after it and before
    the id was used again, and a call without an id carries none.
   */
  lemma {:induction false} CallsCarryLastResult(events: seq<Event>)
    ensures Tracks(events, Run(events))
    ensures forall i :: 0 <= i < |Run(events)| ==> CarriedAt(events, Run(events), i)
    decreases |events|
  {
    RunTracks(events);
    if |events| > 0 {
      var n := |events| - 1;
      CallsCarryLastResult(events[..n]);
      RunStep(events);
      AllCarryNext(events, n, Run(events[..n]));
    }
  }

  // ----- The direct reading, position by position -----

  /** `k` holds the last result with the id between the two positions; `end` stands for there being none. */
  ghost predicate LastResultAt(events: seq<Event>, id: string, from: nat, end: nat, k: nat) {
    from <= end <= |events| && from <= k <= end && (k < end ==> events[k].Result? && events[k].id == id) &&
    forall j :: from <= j < end && (k == end || k < j) ==> !(events[j].Result? && events[j].id == id)
  }

  lemma {:induction false} LastResultIs(events: seq<Event>, id: string, from: nat, end: nat, k: nat)
    requires LastResultAt(events, id, from, end, k)
    ensures LastResult(events, id, from, end) == if k < end then Some(events[k].outcome) else None
    decreases end
  {
    if from < end && k != end - 1 { LastResultIs(events, id, from, end - 1, if k == end then end - 1 else k); }
  }

  /**
    The slot of the call made at position `p`: it carries the outcome of the last
    result with its id after `p` and before the id is called again at `q`, or
    nothing; without an id it carries nothing.
   */
  lemma SlotOfCall(events: seq<Event>, p: nat, q: nat, k: nat) returns (i: nat)
    requires p < q <= |events| && events[p].Call?
    requires (q < |events| ==> events[q] == Call(events[p].id)) && forall j :: p < j < q ==> events[j] != Call(events[p].id)
    requires LastResultAt(events, events[p].id, p + 1, q, k)
    ensures i < |Run(events)| && Run(events)[i].at == p && Run(events)[i].id == events[p].id
    ensures Run(events)[i].result == if events[p].id != "" && k < q then Some(events[k].outcome) else None
  {
    CallsCarryLastResult(events);
    i :| 0 <= i < |Run(events)| && Run(events)[i].at == p;
    assert CarriedAt(events, Run(events), i);
    var r := Reused(events, events[p].id, p + 1);
    assert r == q;
    LastResultIs(events, events[p].id, p + 1, q, k);
  }
}
