/** Requests to turns: `mapRequestsToTurns` and its gap filling. */
module Turns {
  import opened Common
  import opened Messages

  datatype Extraction = Extraction(messageCount: int, messages: seq<Message>)

  datatype Request = Request(txnID: int, result: Option<Extraction>)

  // ----- Counts and gaps -----

  function Prompts(isReal: RealUser, messages: seq<Message>): nat {
    if |messages| == 0 then 0
    else Prompts(isReal, messages[..|messages| - 1]) + if RealPrompt(isReal, messages[|messages| - 1]) then 1 else 0
  }

  /** The prompt count of an entry that could be parsed. */
  function Count(isReal: RealUser, e: Request): Option<nat> {
    if e.result.Some? && e.result.value.messageCount > 0 then Some(Prompts(isReal, e.result.value.messages)) else None
  }

  function Counts(isReal: RealUser, entries: seq<Request>): (counts: seq<Option<nat>>)
    ensures |counts| == |entries| && forall i :: 0 <= i < |entries| ==> counts[i] == Count(isReal, entries[i])
  {
    if |entries| == 0 then [] else Counts(isReal, entries[..|entries| - 1]) + [Count(isReal, entries[|entries| - 1])]
  }

  /** The first known count from position `i` on, else the number of turns. */
  function Next(counts: seq<Option<nat>>, numTurns: nat, i: nat): nat
    requires i <= |counts|
    decreases |counts| - i
  {
    if i == |counts| then numTurns else if counts[i].Some? then counts[i].value else Next(counts, numTurns, i + 1)
  }

  function Max(a: nat, b: nat): nat { if a > b then a else b }

  /** The turn an entry ends up in: its count, or what lies before and after it. */
  function Turn(counts: seq<Option<nat>>, numTurns: nat, i: nat): nat
    requires i < |counts|
  {
    if counts[i].Some? then counts[i].value
    else Max(if i == 0 then 0 else Turn(counts, numTurns, i - 1), Next(counts, numTurns, i + 1))
  }

  ghost predicate CountsRise(counts: seq<Option<nat>>) {
    forall i, j :: 0 <= i < j < |counts| && counts[i].Some? && counts[j].Some? ==> counts[i].value <= counts[j].value
  }

  ghost predicate TurnsRise(counts: seq<Option<nat>>, numTurns: nat) {
    forall i, j :: 0 <= i < j < |counts| ==> Turn(counts, numTurns, i) <= Turn(counts, numTurns, j)
  }

  lemma {:induction false} NextKnown(counts: seq<Option<nat>>, numTurns: nat, i: nat, j: nat)
    requires CountsRise(counts) && i <= j < |counts| && counts[j].Some?
    ensures Next(counts, numTurns, i) <= counts[j].value
    decreases j - i
  {
    if counts[i].None? { NextKnown(counts, numTurns, i + 1, j); }
  }

  /** No entry's turn exceeds a count known later. */
  lemma {:induction false} TurnBelowLater(counts: seq<Option<nat>>, numTurns: nat, i: nat, j: nat)
    requires CountsRise(counts) && i < j < |counts| && counts[j].Some?
    ensures Turn(counts, numTurns, i) <= counts[j].value
    decreases i
  {
    if counts[i].None? {
      NextKnown(counts, numTurns, i + 1, j);
      if i > 0 { TurnBelowLater(counts, numTurns, i - 1, j); }
    }
  }

  lemma {:induction false} TurnStepUp(counts: seq<Option<nat>>, numTurns: nat, i: nat, j: nat)
    requires CountsRise(counts) && i < j < |counts|
    ensures Turn(counts, numTurns, i) <= Turn(counts, numTurns, j)
    decreases j
  {
    if counts[j].Some? {
      TurnBelowLater(counts, numTurns, i, j);
    } else if i < j - 1 {
      TurnStepUp(counts, numTurns, i, j - 1);
    }
  }

  /** Gap filling gives a rising assignment exactly when the known counts rise. */
  lemma TurnsRiseIffCountsDo(counts: seq<Option<nat>>, numTurns: nat)
    ensures TurnsRise(counts, numTurns) <==> CountsRise(counts)
  {
    if CountsRise(counts) {
      forall i, j | 0 <= i < j < |counts| ensures Turn(counts, numTurns, i) <= Turn(counts, numTurns, j) {
        TurnStepUp(counts, numTurns, i, j);
      }
    } else {
      var i, j :| 0 <= i < j < |counts| && counts[i].Some? && counts[j].Some? && counts[i].value > counts[j].value;
      assert Turn(counts, numTurns, i) > Turn(counts, numTurns, j);
    }
  }

  lemma {:induction false} NextAtMost(counts: seq<Option<nat>>, numTurns: nat, i: nat)
    requires i <= |counts| && forall k :: 0 <= k < |counts| && counts[k].Some? ==> counts[k].value <= numTurns
    ensures Next(counts, numTurns, i) <= numTurns
    decreases |counts| - i
  {
    if i < |counts| && counts[i].None? { NextAtMost(counts, numTurns, i + 1); }
  }

  /** With counts up to the number of turns, no entry lands beyond the last turn. */
  lemma {:induction false} TurnAtMost(counts: seq<Option<nat>>, numTurns: nat, i: nat)
    requires i < |counts| && forall k :: 0 <= k < |counts| && counts[k].Some? ==> counts[k].value <= numTurns
    ensures Turn(counts, numTurns, i) <= numTurns
  {
    if counts[i].None? {
      NextAtMost(counts, numTurns, i + 1);
      if i > 0 { TurnAtMost(counts, numTurns, i - 1); }
    }
  }

  // ----- The loops -----

  method CountPrompts(isReal: RealUser, messages: seq<Message>) returns (prompts: nat)
    ensures prompts == Prompts(isReal, messages)
  {
    prompts := 0;
    var i := 0;
    while i < |messages|
      invariant 0 <= i <= |messages| && prompts == Prompts(isReal, messages[..i])
    {
      assert messages[..i + 1][..i] == messages[..i];
      if messages[i].role == "user" && isReal(messages[i]) {
        prompts := prompts + 1;
      }
      i := i + 1;
    }
    assert messages[..i] == messages;
  }

  /** The first loop: exactly the entries that could be parsed have a turn. */
  method KnownTurns(isReal: RealUser, entries: seq<Request>) returns (entryTurns: map<nat, nat>)
    ensures Filled(Counts(isReal, entries), 0, entryTurns, 0)
  {
    entryTurns := map[];
    ghost var counts := Counts(isReal, entries);
    var i := 0;
    while i < |entries|
      invariant 0 <= i <= |entries|
      invariant forall k: nat :: k in entryTurns <==> k < i && counts[k].Some?
      invariant forall k <- entryTurns :: entryTurns[k] == counts[k].value
    {
      var e := entries[i];
      if e.result.Some? && e.result.value.messageCount > 0 {
        var prompts := CountPrompts(isReal, e.result.value.messages);
        entryTurns := entryTurns[i := prompts];
      }
      i := i + 1;
    }
  }

  /** The map while gaps are filled: turns before `n`, known counts from there on. */
  ghost predicate Filled(counts: seq<Option<nat>>, numTurns: nat, entryTurns: map<nat, nat>, n: nat) {
    n <= |counts| &&
    (forall k: nat :: k in entryTurns <==> k < |counts| && (k < n || counts[k].Some?)) &&
    (forall k: nat :: k < n ==> entryTurns[k] == Turn(counts, numTurns, k)) &&
    (forall k: nat :: n <= k < |counts| && counts[k].Some? ==> entryTurns[k] == counts[k].value)
  }

  /** The last turn on record before position `i`, else 0. */
  function Before(entryTurns: map<nat, nat>, i: nat): nat {
    if i == 0 then 0 else if i - 1 in entryTurns then entryTurns[i - 1] else Before(entryTurns, i - 1)
  }

  /** The backward scan. */
  method PreviousTurn(entryTurns: map<nat, nat>, i: nat) returns (prev: nat)
    ensures prev == Before(entryTurns, i)
  {
    var j := i - 1;
    while j >= 0
      invariant -1 <= j < i && Before(entryTurns, i) == Before(entryTurns, j + 1)
    {
      if j in entryTurns { return entryTurns[j]; }
      j := j - 1;
    }
    prev := 0;
  }

  /** The forward scan for the next known count. */
  method NextTurn(ghost counts: seq<Option<nat>>, numTurns: nat, entryTurns: map<nat, nat>, i: nat, n: nat)
    returns (next: nat)
    requires Filled(counts, numTurns, entryTurns, i) && i < n == |counts|
    ensures next == Next(counts, numTurns, i + 1)
  {
    var j := i + 1;
    while j < n
      invariant i < j <= n && Next(counts, numTurns, i + 1) == Next(counts, numTurns, j)
    {
      if j in entryTurns { return entryTurns[j]; }
      j := j + 1;
    }
    next := numTurns;
  }

  lemma FilledNext(counts: seq<Option<nat>>, numTurns: nat, entryTurns: map<nat, nat>, i: nat)
    requires Filled(counts, numTurns, entryTurns, i) && i < |counts|
    ensures i in entryTurns <==> counts[i].Some?
    ensures Before(entryTurns, i) == if i == 0 then 0 else Turn(counts, numTurns, i - 1)
    ensures Filled(counts, numTurns, if i in entryTurns then entryTurns else entryTurns[i := Turn(counts, numTurns, i)], i + 1)
  {
  }

  /** The second loop: every gap gets the larger of the turn before it and the next known count. */
  method FillGaps(ghost counts: seq<Option<nat>>, numTurns: nat, known: map<nat, nat>, n: nat)
    returns (entryTurns: map<nat, nat>)
    requires Filled(counts, numTurns, known, 0) && n == |counts|
    ensures Filled(counts, numTurns, entryTurns, n)
  {
    entryTurns := known;
    var i := 0;
    while i < n
      invariant 0 <= i <= n && Filled(counts, numTurns, entryTurns, i)
    {
      FilledNext(counts, numTurns, entryTurns, i);
      if i !in entryTurns {
        var prev := PreviousTurn(entryTurns, i);
        var next := NextTurn(counts, numTurns, entryTurns, i, n);
        entryTurns := entryTurns[i := if prev > next then prev else next];
      }
      i := i + 1;
    }
  }

  /** The entries of turn `t`, in order. */
  function InTurn(entries: seq<Request>, turns: seq<nat>, t: nat): seq<Request>
    requires |entries| == |turns|
  {
    if |entries| == 0 then []
    else
      var n := |entries| - 1;
      var rest := InTurn(entries[..n], turns[..n], t);
      if turns[n] == t then rest + [entries[n]] else rest
  }

  function AllTurns(counts: seq<Option<nat>>, numTurns: nat, n: nat): (turns: seq<nat>)
    requires n <= |counts|
    ensures |turns| == n && forall i :: 0 <= i < n ==> turns[i] == Turn(counts, numTurns, i)
  {
    if n == 0 then [] else AllTurns(counts, numTurns, n - 1) + [Turn(counts, numTurns, n - 1)]
  }

  /** The filed requests are, turn by turn, the entries of the turn. */
  ghost predicate FiledByTurn(entries: seq<Request>, turns: seq<nat>, numTurns: nat, result: map<nat, seq<Request>>)
    requires |entries| == |turns|
  {
    (forall t <- result :: 1 <= t <= numTurns) &&
    forall t :: 1 <= t <= numTurns ==> (if t in result then result[t] else []) == InTurn(entries, turns, t)
  }

  /** Filing one more entry. */
  lemma FiledNext(entries: seq<Request>, turns: seq<nat>, numTurns: nat, result: map<nat, seq<Request>>, i: nat)
    requires i < |entries| == |turns| && FiledByTurn(entries[..i], turns[..i], numTurns, result)
    ensures FiledByTurn(entries[..i + 1], turns[..i + 1], numTurns, Refiled(result, numTurns, turns[i], entries[i]))
  {
    assert entries[..i + 1][..i] == entries[..i] && turns[..i + 1][..i] == turns[..i];
  }

  function Refiled(result: map<nat, seq<Request>>, numTurns: nat, turn: nat, e: Request): map<nat, seq<Request>> {
    if 1 <= turn <= numTurns then result[turn := (if turn in result then result[turn] else []) + [e]] else result
  }

  /** One round of the filing loop. */
  method FileEntry(result: map<nat, seq<Request>>, numTurns: nat, turn: nat, e: Request)
    returns (out: map<nat, seq<Request>>)
    ensures out == Refiled(result, numTurns, turn, e)
  {
    out := result;
    if 1 <= turn <= numTurns {
      out := out[turn := (if turn in out then out[turn] else []) + [e]];
    }
  }

  /** `mapRequestsToTurns`. */
  method MapRequestsToTurns(isReal: RealUser, entries: seq<Request>, numTurns: nat)
    returns (result: map<nat, seq<Request>>)
    ensures FiledByTurn(entries, AllTurns(Counts(isReal, entries), numTurns, |entries|), numTurns, result)
  {
    ghost var counts := Counts(isReal, entries);
    var known := KnownTurns(isReal, entries);
    var entryTurns := FillGaps(counts, numTurns, known, |entries|);
    ghost var turns := AllTurns(counts, numTurns, |entries|);
    result := map[];
    var i := 0;
    while i < |entries|
      invariant 0 <= i <= |entries| && FiledByTurn(entries[..i], turns[..i], numTurns, result)
    {
      FiledNext(entries, turns, numTurns, result, i);
      result := FileEntry(result, numTurns, entryTurns[i], entries[i]);
      i := i + 1;
    }
    assert entries[..i] == entries && turns[..i] == turns;
  }

  // ----- What a rising assignment gives -----

  ghost predicate Rising(turns: seq<nat>) { forall i, j :: 0 <= i < j < |turns| ==> turns[i] <= turns[j] }

  /** The entries of turns `lo` to `hi`, in order. */
  function Between(entries: seq<Request>, turns: seq<nat>, lo: nat, hi: nat): seq<Request>
    requires |entries| == |turns|
  {
    if |entries| == 0 then []
    else
      var n := |entries| - 1;
      var rest := Between(entries[..n], turns[..n], lo, hi);
      if lo <= turns[n] <= hi then rest + [entries[n]] else rest
  }

  /** The turns' entries one turn after the other. */
  function TurnByTurn(entries: seq<Request>, turns: seq<nat>, n: nat): seq<Request>
    requires |entries| == |turns|
  {
    if n == 0 then [] else TurnByTurn(entries, turns, n - 1) + InTurn(entries, turns, n)
  }

  lemma {:induction false} NoneInLaterTurn(entries: seq<Request>, turns: seq<nat>, t: nat)
    requires |entries| == |turns| && forall i :: 0 <= i < |turns| ==> turns[i] < t
    ensures InTurn(entries, turns, t) == []
    decreases |entries|
  {
    if |entries| > 0 { NoneInLaterTurn(entries[..|entries| - 1], turns[..|entries| - 1], t); }
  }

  /** In a rising assignment the last turn's entries come last. */
  lemma {:induction false} LastTurnLast(entries: seq<Request>, turns: seq<nat>, n: nat)
    requires |entries| == |turns| && Rising(turns) && n >= 1
    ensures Between(entries, turns, 1, n) == Between(entries, turns, 1, n - 1) + InTurn(entries, turns, n)
    decreases |entries|
  {
    if |entries| > 0 {
      var k := |entries| - 1;
      LastTurnLast(entries[..k], turns[..k], n);
      if 1 <= turns[k] < n { NoneInLaterTurn(entries[..k], turns[..k], n); }
    }
  }

  /** Reading the turns one after the other gives back the entries of turn 1 up, in order. */
  lemma {:induction false} TurnsConcatenate(entries: seq<Request>, turns: seq<nat>, n: nat)
    requires |entries| == |turns| && Rising(turns)
    ensures TurnByTurn(entries, turns, n) == Between(entries, turns, 1, n)
    decreases n
  {
    if n == 0 {
      NothingBetween(entries, turns);
    } else {
      TurnsConcatenate(entries, turns, n - 1);
      LastTurnLast(entries, turns, n);
    }
  }

  lemma {:induction false} NothingBetween(entries: seq<Request>, turns: seq<nat>)
    requires |entries| == |turns|
    ensures Between(entries, turns, 1, 0) == []
    decreases |entries|
  {
    if |entries| > 0 { NothingBetween(entries[..|entries| - 1], turns[..|entries| - 1]); }
  }

  lemma StretchReachesEnd(turns: seq<nat>, n: nat, lo: nat, hi: nat, from: nat, to: nat)
    requires Rising(turns) && from < to <= n < |turns| && turns[n] <= hi
    requires forall i :: 0 <= i < n ==> (lo <= turns[i] <= hi <==> from <= i < to)
    ensures to == n
  {
    assert turns[from] <= turns[n - 1] <= turns[n];
    assert lo <= turns[n - 1] <= hi;
  }

  lemma BetweenNext(entries: seq<Request>, turns: seq<nat>, lo: nat, hi: nat, a: nat, b: nat, from: nat)
    requires |entries| == |turns| > 0 && lo <= turns[|turns| - 1] <= hi && a <= b <= |entries| - 1
    requires var n := |entries| - 1; Between(entries[..n], turns[..n], lo, hi) == entries[..n][a..b]
    requires if a == b then from == |entries| - 1 else from == a && b == |entries| - 1
    ensures Between(entries, turns, lo, hi) == entries[from..|entries|]
  {
    var n := |entries| - 1;
    assert entries[..n][a..b] == entries[from..n];
    assert entries[from..|entries|] == entries[from..n] + [entries[n]];
  }

  /** In a rising assignment the entries of turns 1 to `n` are one stretch of the list. */
  lemma {:induction false} BetweenIsStretch(entries: seq<Request>, turns: seq<nat>, lo: nat, hi: nat)
    returns (from: nat, to: nat)
    requires |entries| == |turns| && Rising(turns)
    ensures from <= to <= |entries| && Between(entries, turns, lo, hi) == entries[from..to]
    ensures forall i :: 0 <= i < |turns| ==> (lo <= turns[i] <= hi <==> from <= i < to)
    decreases |entries|
  {
    if |entries| == 0 {
      from, to := 0, 0;
    } else {
      var n := |entries| - 1;
      from, to := BetweenIsStretch(entries[..n], turns[..n], lo, hi);
      assert forall i :: 0 <= i < n ==> turns[..n][i] == turns[i];
      assert forall i :: 0 <= i < n ==> (lo <= turns[i] <= hi <==> from <= i < to);
      if lo <= turns[n] <= hi {
        if from == to {
          BetweenNext(entries, turns, lo, hi, from, to, n);
          from := n;
        } else {
          StretchReachesEnd(turns, n, lo, hi, from, to);
          BetweenNext(entries, turns, lo, hi, from, to, from);
        }
        to := n + 1;
      } else {
        assert entries[..n][from..to] == entries[from..to];
      }
    }
  }

  lemma {:induction false} InTurnIsBetween(entries: seq<Request>, turns: seq<nat>, t: nat)
    requires |entries| == |turns|
    ensures InTurn(entries, turns, t) == Between(entries, turns, t, t)
    decreases |entries|
  {
    if |entries| > 0 { InTurnIsBetween(entries[..|entries| - 1], turns[..|entries| - 1], t); }
  }

  /** When no entry is beyond the last turn, turns 1 up are the rest of the list from some entry on. */
  lemma TurnsReachEnd(entries: seq<Request>, turns: seq<nat>, numTurns: nat) returns (from: nat)
    requires |entries| == |turns| && Rising(turns) && forall i :: 0 <= i < |turns| ==> turns[i] <= numTurns
    ensures from <= |entries| && Between(entries, turns, 1, numTurns) == entries[from..]
    ensures forall i :: 0 <= i < |entries| ==> (i >= from <==> turns[i] >= 1)
  {
    var to;
    from, to := BetweenIsStretch(entries, turns, 1, numTurns);
    var n := |entries|;
    if from == to {
      assert entries[from..to] == [];
      from := n;
    } else {
      assert turns[from] <= turns[n - 1] <= numTurns;
      assert to == n;
    }
  }

  predicate IsSlice(entries: seq<Request>, a: nat, b: nat, part: seq<Request>) {
    a <= b <= |entries| && entries[a..b] == part
  }

  ghost predicate Stretch(entries: seq<Request>, part: seq<Request>) { exists a, b :: IsSlice(entries, a, b, part) }

  lemma InTurnIsStretch(entries: seq<Request>, turns: seq<nat>, t: nat)
    requires |entries| == |turns| && Rising(turns)
    ensures Stretch(entries, InTurn(entries, turns, t))
  {
    var a, b := BetweenIsStretch(entries, turns, t, t);
    InTurnIsBetween(entries, turns, t);
    assert IsSlice(entries, a, b, InTurn(entries, turns, t));
  }

  /**
    When the counts of parseable entries rise and stay within the turns, each
    turn's requests are one stretch of the list, and the turns read one after the
    other give every entry from the first one of turn 1 to the end.
   */
  lemma TurnsTile(counts: seq<Option<nat>>, numTurns: nat, entries: seq<Request>) returns (from: nat)
    requires |counts| == |entries| && CountsRise(counts)
    requires forall k :: 0 <= k < |counts| && counts[k].Some? ==> counts[k].value <= numTurns
    ensures var turns := AllTurns(counts, numTurns, |counts|);
      from <= |entries| && TurnByTurn(entries, turns, numTurns) == entries[from..] &&
      (forall i :: 0 <= i < |entries| ==> (i >= from <==> turns[i] >= 1)) &&
      forall t :: Stretch(entries, InTurn(entries, turns, t))
  {
    var turns := AllTurns(counts, numTurns, |counts|);
    TurnsRiseIffCountsDo(counts, numTurns);
    assert Rising(turns);
    forall i | 0 <= i < |turns| ensures turns[i] <= numTurns { TurnAtMost(counts, numTurns, i); }
    TurnsConcatenate(entries, turns, numTurns);
    from := TurnsReachEnd(entries, turns, numTurns);
    forall t ensures Stretch(entries, InTurn(entries, turns, t)) { InTurnIsStretch(entries, turns, t); }
  }

  // ----- The same, entry by entry -----

  /** The positions of the real prompts. */
  ghost function PromptsAt(isReal: RealUser, messages: seq<Message>): set<nat> {
    set i: nat | i < |messages| && messages[i].role == "user" && isReal(messages[i])
  }

  /** The prompt count is the number of user messages that are real. */
  lemma {:induction false} PromptsCounted(isReal: RealUser, messages: seq<Message>)
    ensures Prompts(isReal, messages) == |PromptsAt(isReal, messages)|
    decreases |messages|
  {
    if |messages| > 0 {
      var n := |messages| - 1;
      PromptsCounted(isReal, messages[..n]);
      var here, before := PromptsAt(isReal, messages), PromptsAt(isReal, messages[..n]);
      if messages[n].role == "user" && isReal(messages[n]) {
        assert here == before + {n};
      } else {
        assert here == before;
      }
    }
  }

  /** An entry has a count of its own exactly when it was dissected and has messages. */
  lemma CountKnown(isReal: RealUser, entries: seq<Request>, k: nat)
    requires k < |entries|
    ensures Counts(isReal, entries)[k].Some? <==> entries[k].result.Some? && entries[k].result.value.messageCount > 0
    ensures Counts(isReal, entries)[k].Some? ==>
      Counts(isReal, entries)[k].value == |PromptsAt(isReal, entries[k].result.value.messages)|
  {
    if entries[k].result.Some? { PromptsCounted(isReal, entries[k].result.value.messages); }
  }

  /** A gap's turn is the least that is below neither the turn before it nor the next known count, or the last turn. */
  lemma {:induction false} GapTurn(counts: seq<Option<nat>>, numTurns: nat, i: nat, k: nat)
    requires i < k <= |counts| && (k < |counts| ==> counts[k].Some?) && forall j :: i <= j < k ==> counts[j].None?
    ensures var next := if k < |counts| then counts[k].value else numTurns; var t := Turn(counts, numTurns, i);
      t >= next && (i > 0 ==> t >= Turn(counts, numTurns, i - 1)) && (t == next || (i > 0 && t == Turn(counts, numTurns, i - 1)))
  {
    NextIs(counts, numTurns, i + 1, k);
  }

  lemma {:induction false} NextIs(counts: seq<Option<nat>>, numTurns: nat, i: nat, k: nat)
    requires i <= k <= |counts| && (k < |counts| ==> counts[k].Some?) && forall j :: i <= j < k ==> counts[j].None?
    ensures Next(counts, numTurns, i) == if k < |counts| then counts[k].value else numTurns
    decreases k - i
  {
    if i < k { NextIs(counts, numTurns, i + 1, k); }
  }

  /** A turn holds exactly the entries assigned to it. */
  lemma {:induction false} InTurnMembers(entries: seq<Request>, turns: seq<nat>, t: nat, e: Request)
    requires |entries| == |turns|
    ensures e in InTurn(entries, turns, t) <==> exists k :: 0 <= k < |entries| && entries[k] == e && turns[k] == t
    decreases |entries|
  {
    if |entries| > 0 {
      var n := |entries| - 1;
      InTurnMembers(entries[..n], turns[..n], t, e);
      if k :| 0 <= k < |entries| && entries[k] == e && turns[k] == t {
        assert k < n ==> entries[..n][k] == e && turns[..n][k] == t;
      }
      if k :| 0 <= k < n && entries[..n][k] == e && turns[..n][k] == t {
        assert entries[k] == e && turns[k] == t;
      }
    }
  }

  /**
    End to end for an entry that could be parsed: with `c` real prompts in its
    messages it is filed under turn `c`, if there is such a turn.
   */
  lemma ParsedEntryFiled(isReal: RealUser, entries: seq<Request>, numTurns: nat, result: map<nat, seq<Request>>, k: nat,
                         c: nat)
    requires k < |entries| && entries[k].result.Some? && entries[k].result.value.messageCount > 0
    requires c == |PromptsAt(isReal, entries[k].result.value.messages)| && 1 <= c <= numTurns
    requires FiledByTurn(entries, AllTurns(Counts(isReal, entries), numTurns, |entries|), numTurns, result)
    ensures c in result && entries[k] in result[c]
  {
    PromptsCounted(isReal, entries[k].result.value.messages);
    var turns := AllTurns(Counts(isReal, entries), numTurns, |entries|);
    assert turns[k] == c;
    InTurnMembers(entries, turns, c, entries[k]);
  }

  /** Nothing is filed that is not an entry, and no turn but those from 1 to the last is there. */
  lemma FiledAreEntries(entries: seq<Request>, turns: seq<nat>, numTurns: nat, result: map<nat, seq<Request>>, t: nat,
                        e: Request)
    requires |entries| == |turns| && FiledByTurn(entries, turns, numTurns, result) && t in result && e in result[t]
    ensures 1 <= t <= numTurns && exists k :: 0 <= k < |entries| && entries[k] == e && turns[k] == t
  {
    InTurnMembers(entries, turns, t, e);
  }
}
