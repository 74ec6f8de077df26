/**
  The request and response cascades of cmd/greyproxy/program.go and the header
  merge of middleware/cascade.go.

  `send` stands for `Client.Send`: for each hook position and working state it
  gives the decision received, so a statement for all `send` covers every
  sequence of middleware answers, timeouts and disconnects.
 */
module Cascade {
  import opened Common
  import opened MiddlewareTypes

  // ----- Header names -----

  predicate IsUpper(c: char) { 'A' <= c <= 'Z' }
  predicate IsLower(c: char) { 'a' <= c <= 'z' }
  function ToUpper(c: char): char { if IsLower(c) then c - 'a' + 'A' else c }
  function ToLower(c: char): char { if IsUpper(c) then c - 'A' + 'a' else c }

  /** Token characters of section 3.2.6 of RFC 7230. */
  predicate TokenChar(c: char) {
    IsUpper(c) || IsLower(c) || '0' <= c <= '9' || c == '!' || '#' <= c <= '\'' || c == '*' || c == '+' ||
    c == '-' || c == '.' || '^' <= c <= '`' || c == '|' || c == '~'
  }

  predicate IsToken(s: string) { forall c <- s :: TokenChar(c) }

  function TitleCase(s: string, upper: bool): string {
    if s == "" then ""
    else [if upper then ToUpper(s[0]) else ToLower(s[0])] + TitleCase(s[1..], s[0] == '-')
  }

  /** `http.CanonicalHeaderKey`: title case after each hyphen, or unchanged if not a token. */
  function CanonicalHeaderKey(s: string): string {
    if IsToken(s) then TitleCase(s, true) else s
  }

  predicate EqualFold(a: string, b: string) {
    |a| == |b| && forall i :: 0 <= i < |a| ==> ToLower(a[i]) == ToLower(b[i])
  }

  lemma {:induction false} TitleCaseFolds(a: string, b: string, upper: bool)
    requires EqualFold(a, b)
    ensures TitleCase(a, upper) == TitleCase(b, upper)
    decreases |a|
  {
    if a != "" {
      assert ToLower(a[0]) == ToLower(b[0]);
      assert forall i :: 0 <= i < |a| - 1 ==> a[1..][i] == a[i + 1] && b[1..][i] == b[i + 1];
      TitleCaseFolds(a[1..], b[1..], a[0] == '-');
    }
  }

  /** Every spelling of a token has the same canonical form, so the denylist cannot be dodged by case. */
  lemma CanonicalIgnoresCase(a: string, b: string)
    requires EqualFold(a, b) && IsToken(a)
    ensures IsToken(b) && CanonicalHeaderKey(a) == CanonicalHeaderKey(b)
  {
    forall c <- b ensures TokenChar(c) {
      var i :| 0 <= i < |b| && b[i] == c;
      assert ToLower(a[i]) == ToLower(b[i]) && a[i] in a;
    }
    TitleCaseFolds(a, b, true);
  }

  const FORBIDDEN_REWRITE_HEADERS: set<string> := {
    "Connection", "Keep-Alive", "Proxy-Authenticate", "Proxy-Authorization",
    "Te", "Trailer", "Transfer-Encoding", "Upgrade",
    "Authorization", "Cookie", "Set-Cookie", "Host" }

  // ----- MergeRewriteHeaders -----

  /** A mutable `http.Header`. */
  class HeaderMap {
    var entries: Headers

    constructor (h: Headers)
      ensures entries == h
    {
      entries := h;
    }
  }

  /** What a merge leaves behind: the last value allowed for each canonical name wins. */
  function Merged(forbidden: set<string>, dst: Headers, src: seq<(string, seq<string>)>): Headers
    decreases |src|
  {
    if src == [] then dst
    else
      var n := |src| - 1;
      var before := Merged(forbidden, dst, src[..n]);
      var canonical := CanonicalHeaderKey(src[n].0);
      if canonical in forbidden then before else before[canonical := src[n].1]
  }

  /** The canonical names of the entries that are on the denylist, or of those that are not, in order. */
  function Reported(forbidden: set<string>, src: seq<(string, seq<string>)>, denied: bool): (names: seq<string>)
    decreases |src|
    ensures forall name <- names :: (name in forbidden) == denied
  {
    if src == [] then []
    else
      var before := Reported(forbidden, src[..|src| - 1], denied);
      var canonical := CanonicalHeaderKey(src[|src| - 1].0);
      if (canonical in forbidden) == denied then before + [canonical] else before
  }

  /** Every entry is reported once: as applied or as rejected, under its canonical name. */
  lemma {:induction false} EachReportedOnce(forbidden: set<string>, src: seq<(string, seq<string>)>, name: string)
    ensures multiset(Reported(forbidden, src, name in forbidden))[name] == NameCount(src, name)
    ensures multiset(Reported(forbidden, src, name !in forbidden))[name] == 0
    ensures |Reported(forbidden, src, true)| + |Reported(forbidden, src, false)| == |src|
    decreases |src|
  {
    if src != [] { EachReportedOnce(forbidden, src[..|src| - 1], name); }
  }

  /** How many entries have this canonical name. */
  function NameCount(src: seq<(string, seq<string>)>, name: string): nat {
    if src == [] then 0
    else NameCount(src[..|src| - 1], name) + if CanonicalHeaderKey(src[|src| - 1].0) == name then 1 else 0
  }

  method MergeRewriteHeaders(dst: HeaderMap, src: seq<(string, seq<string>)>)
    returns (applied: seq<string>, rejected: seq<string>)
    modifies dst
    ensures dst.entries == Merged(FORBIDDEN_REWRITE_HEADERS, old(dst.entries), src)
    ensures applied == Reported(FORBIDDEN_REWRITE_HEADERS, src, false)
    ensures rejected == Reported(FORBIDDEN_REWRITE_HEADERS, src, true)
    ensures forall name <- applied :: name in dst.entries
    ensures |applied| + |rejected| == |src|
  {
    applied, rejected := MergeAllowed(FORBIDDEN_REWRITE_HEADERS, dst, src);
  }

  /** The loop of `MergeRewriteHeaders`, for any denylist. */
  method MergeAllowed(forbidden: set<string>, dst: HeaderMap, src: seq<(string, seq<string>)>)
    returns (applied: seq<string>, rejected: seq<string>)
    modifies dst
    ensures dst.entries == Merged(forbidden, old(dst.entries), src)
    ensures applied == Reported(forbidden, src, false)
    ensures rejected == Reported(forbidden, src, true)
    ensures forall name <- applied :: name in dst.entries
    ensures |applied| + |rejected| == |src|
  {
    applied, rejected := [], [];
    ghost var done: seq<(string, seq<string>)> := [];
    var i := 0;
    while i < |src|
      invariant 0 <= i <= |src| && done == src[..i]
      invariant dst.entries == Merged(forbidden, old(dst.entries), done)
      invariant applied == Reported(forbidden, done, false) && rejected == Reported(forbidden, done, true)
      invariant forall name <- applied :: name in dst.entries
      invariant |applied| + |rejected| == i
    {
      ghost var next := done + [src[i]];
      assert next[..|next| - 1] == done && next == src[..i + 1];
      done := next;
      var canonical := CanonicalHeaderKey(src[i].0);
      if canonical in forbidden {
        rejected := rejected + [canonical];
      } else {
        dst.entries := dst.entries[canonical := src[i].1];
        applied := applied + [canonical];
      }
      i := i + 1;
    }
    assert src[..i] == src;
  }

  predicate SameAt(a: Headers, b: Headers, name: string) {
    (name in a <==> name in b) && (name in a ==> a[name] == b[name])
  }

  predicate Names(src: seq<(string, seq<string>)>, name: string) {
    exists i :: 0 <= i < |src| && CanonicalHeaderKey(src[i].0) == name
  }

  /** Some entry gives `name` this value. */
  predicate Gives(src: seq<(string, seq<string>)>, name: string, value: seq<string>) {
    exists i :: 0 <= i < |src| && CanonicalHeaderKey(src[i].0) == name && src[i].1 == value
  }

  /** The last entry counts by itself; the others as before. */
  lemma NamesSnoc(src: seq<(string, seq<string>)>, name: string)
    requires src != []
    ensures var n := |src| - 1; Names(src, name) <==> Names(src[..n], name) || CanonicalHeaderKey(src[n].0) == name
  {
    var n, rest := |src| - 1, src[..|src| - 1];
    if Names(src, name) {
      var i :| 0 <= i < |src| && CanonicalHeaderKey(src[i].0) == name;
      if i < n { assert rest[i] == src[i]; }
    }
    if Names(rest, name) {
      var i :| 0 <= i < n && CanonicalHeaderKey(rest[i].0) == name;
      assert src[i] == rest[i];
    }
  }

  lemma GivesMore(src: seq<(string, seq<string>)>, name: string, v: seq<string>)
    requires src != [] && Gives(src[..|src| - 1], name, v)
    ensures Gives(src, name, v)
  {
    var rest := src[..|src| - 1];
    var i :| 0 <= i < |rest| && CanonicalHeaderKey(rest[i].0) == name && rest[i].1 == v;
    assert src[i] == rest[i];
  }

  /**
    Exactly the protected headers and those no rewrite entry names survive a
    merge; every other named header gets the value of one of its entries.
   */
  lemma {:induction false} MergeTouchesOnlyNamed(forbidden: set<string>, dst: Headers, src: seq<(string, seq<string>)>,
                                                 name: string)
    ensures name in forbidden || !Names(src, name) ==> SameAt(dst, Merged(forbidden, dst, src), name)
    ensures name !in forbidden && Names(src, name) ==>
      name in Merged(forbidden, dst, src) && Gives(src, name, Merged(forbidden, dst, src)[name])
    decreases |src|
  {
    if src != [] {
      var n, before := |src| - 1, Merged(forbidden, dst, src[..|src| - 1]);
      NamesSnoc(src, name);
      MergeTouchesOnlyNamed(forbidden, dst, src[..n], name);
      if name !in forbidden && Names(src[..n], name) { GivesMore(src, name, before[name]); }
    }
  }

  // ----- The cascade as a fold that stops -----

  datatype Event = Event(sequence: nat, name: string, url: string, action: string, statusCode: int,
                         headersChanged: set<string>, bodyRewritten: bool, tags: map<string, string>)

  /** A hook and its filter; of what the filter sees, only the content type can change during a cascade. */
  datatype Hook = Hook(url: string, name: string, filter: string -> bool)

  type SendFn = (nat, Headers, seq<byte>, int) -> Decision

  datatype Stop = Stop(status: int, body: Option<seq<byte>>)

  /** The working state of a cascade; the request cascade leaves `status` and `rewritten` alone. */
  datatype Flow = Flow(headers: Headers, body: seq<byte>, status: int, rewritten: bool,
                       next: nat, events: seq<Event>, stop: Option<Stop>)

  function Get(h: Headers, name: string): string {
    if name in h && |h[name]| > 0 then h[name][0] else ""
  }

  function DiffHeaderNames(before: Headers, after: Headers): set<string> {
    (set k | k in after.Keys && (k !in before || before[k] != after[k])) + (before.Keys - after.Keys)
  }

  /** Which cascade runs, and the denylist its merges use. */
  datatype Kind = Kind(isResponse: bool, forbidden: set<string>)

  const REQUEST := Kind(false, FORBIDDEN_REWRITE_HEADERS)
  const RESPONSE := Kind(true, FORBIDDEN_REWRITE_HEADERS)

  function StopAction(isResponse: bool): string { if isResponse then "block" else "deny" }

  function BodyOr(d: Decision, body: seq<byte>): seq<byte> {
    if d.body.Some? then d.body.value else body
  }

  /** Headers after a rewrite: a response body rewrite first strips Content-Encoding. */
  function RewriteHeaders(kind: Kind, d: Decision, h: Headers): Headers {
    Merged(kind.forbidden, if kind.isResponse && d.body.Some? then h - {"Content-Encoding"} else h, d.headers)
  }

  function StopEvent(hook: Hook, next: nat, d: Decision): Event {
    Event(next, hook.name, hook.url, d.action, d.statusCode, {}, false, d.tags)
  }

  function RewriteEvent(hook: Hook, next: nat, d: Decision, before: Headers, after: Headers, body: seq<byte>): Event {
    Event(next, hook.name, hook.url, "rewrite", d.statusCode,
          DiffHeaderNames(before, after), d.body.Some? && d.body.value != body, d.tags)
  }

  function TagEvent(hook: Hook, next: nat, d: Decision): Event {
    Event(next, hook.name, hook.url, if d.action == "passthrough" then "tagged-passthrough" else "tagged-allow",
          0, {}, false, d.tags)
  }

  /** One matched hook with decision `d`. */
  function Decide(kind: Kind, hook: Hook, d: Decision, f: Flow): Flow {
    if d.action == StopAction(kind.isResponse) then
      f.(events := f.events + [StopEvent(hook, f.next, d)],
         stop := Some(Stop(d.statusCode, d.body)))
    else if d.action == "rewrite" then
      var h := RewriteHeaders(kind, d, f.headers);
      Flow(h, BodyOr(d, f.body),
           if kind.isResponse && d.statusCode != 0 then d.statusCode else f.status,
           kind.isResponse || f.rewritten,
           f.next + 1,
           f.events + [RewriteEvent(hook, f.next, d, f.headers, h, f.body)],
           None)
    else if d.tags != map[] then
      f.(next := f.next + 1, events := f.events + [TagEvent(hook, f.next, d)])
    else f.(next := f.next + 1)
  }

  predicate Matches(hook: Hook, f: Flow) { hook.filter(Get(f.headers, "Content-Type")) }

  function DecisionAt(send: SendFn, k: nat, f: Flow): Decision { send(k, f.headers, f.body, f.status) }

  /** The cascade after its first `k` hooks. */
  function After(kind: Kind, hooks: seq<Hook>, send: SendFn, f: Flow, k: nat): Flow
    requires k <= |hooks|
  {
    if k == 0 then f
    else
      var g := After(kind, hooks, send, f, k - 1);
      if g.stop.Some? || !Matches(hooks[k - 1], g) then g
      else Decide(kind, hooks[k - 1], DecisionAt(send, k - 1, g), g)
  }

  function Start(h: Headers, body: seq<byte>, status: int): Flow {
    Flow(h, body, status, false, 0, [], None)
  }

  /** The cascade one hook on. */
  lemma NextHook(kind: Kind, hooks: seq<Hook>, send: SendFn, f: Flow, k: nat, g: Flow) returns (t: Flow)
    requires k < |hooks| && g == After(kind, hooks, send, f, k) && g.stop.None?
    ensures t == After(kind, hooks, send, f, k + 1)
    ensures !Matches(hooks[k], g) ==> t == g
    ensures Matches(hooks[k], g) ==> t == Decide(kind, hooks[k], DecisionAt(send, k, g), g)
  {
    t := After(kind, hooks, send, f, k + 1);
  }

  /** A matched request hook that does not stop the cascade. */
  method RequestHook(kind: Kind, h: Hook, header: HeaderMap, d: Decision, f: Flow)
    returns (newBody: seq<byte>, newEvents: seq<Event>)
    requires !kind.isResponse && d.action != "deny" && header.entries == f.headers && f.stop.None?
    modifies header
    ensures f.(headers := header.entries, body := newBody, next := f.next + 1, events := newEvents) == Decide(kind, h, d, f)
  {
    newBody, newEvents := f.body, f.events;
    var preHeaders := header.entries;
    if d.action == "rewrite" {
      if d.body.Some? { newBody := d.body.value; }
      var _, _ := MergeAllowed(kind.forbidden, header, d.headers);
      newEvents := f.events + [RewriteEvent(h, f.next, d, preHeaders, header.entries, f.body)];
    } else if d.tags != map[] {
      newEvents := f.events + [TagEvent(h, f.next, d)];
    }
  }

  /** The loop of `runRequestCascade`, for any denylist. */
  method WalkRequestHooks(kind: Kind, hooks: seq<Hook>, header: HeaderMap, body: seq<byte>, send: SendFn)
    returns (denied: bool, stop: Option<Stop>, newBody: seq<byte>, events: seq<Event>)
    requires !kind.isResponse
    modifies header
    ensures var end := After(kind, hooks, send, Start(old(header.entries), body, 0), |hooks|);
      && header.entries == end.headers && newBody == end.body && events == end.events
      && stop == end.stop && denied == end.stop.Some?
  {
    newBody, events := body, [];
    denied, stop := false, None;
    ghost var start := Start(header.entries, body, 0);
    ghost var g := start;
    var next := 0;
    var i := 0;
    while i < |hooks|
      invariant 0 <= i <= |hooks|
      invariant !denied && stop.None?
      invariant g == After(kind, hooks, send, start, i)
      invariant g == Flow(header.entries, newBody, 0, false, next, events, None)
    {
      var h := hooks[i];
      g := NextHook(kind, hooks, send, start, i, g);
      if h.filter(Get(header.entries, "Content-Type")) {
        var d := send(i, header.entries, newBody, 0);
        if d.action == "deny" {
          events := events + [StopEvent(h, next, d)];
          denied, stop := true, Some(Stop(d.statusCode, d.body));
          StoppedStaysStopped(kind, hooks, send, start, i + 1, |hooks|);
          return;
        }
        var f := Flow(header.entries, newBody, 0, false, next, events, None);
        newBody, events := RequestHook(kind, h, header, d, f);
        next := next + 1;
      }
      i := i + 1;
    }
  }

  /** The rewrite branch: status, body (which strips Content-Encoding), then the headers. */
  method RewriteResponse(kind: Kind, header: HeaderMap, d: Decision, status: int, body: seq<byte>)
    returns (newStatus: int, newBody: seq<byte>)
    requires kind.isResponse
    modifies header
    ensures header.entries == RewriteHeaders(kind, d, old(header.entries))
    ensures newBody == BodyOr(d, body) && newStatus == if d.statusCode != 0 then d.statusCode else status
  {
    newStatus, newBody := status, body;
    if d.statusCode != 0 { newStatus := d.statusCode; }
    if d.body.Some? {
      newBody := d.body.value;
      header.entries := header.entries - {"Content-Encoding"};
    }
    var _, _ := MergeAllowed(kind.forbidden, header, d.headers);
  }

  /** A matched response hook that does not stop the cascade. */
  method ResponseHook(kind: Kind, h: Hook, header: HeaderMap, d: Decision, f: Flow)
    returns (newStatus: int, newBody: seq<byte>, newEvents: seq<Event>)
    requires kind.isResponse && d.action != "block" && header.entries == f.headers && f.stop.None?
    modifies header
    ensures Flow(header.entries, newBody, newStatus, f.rewritten || d.action == "rewrite", f.next + 1, newEvents, None) ==
            Decide(kind, h, d, f)
  {
    newStatus, newBody, newEvents := f.status, f.body, f.events;
    var preHeaders := header.entries;
    if d.action == "rewrite" {
      newStatus, newBody := RewriteResponse(kind, header, d, f.status, f.body);
      newEvents := f.events + [RewriteEvent(h, f.next, d, preHeaders, header.entries, f.body)];
    } else if d.tags != map[] {
      newEvents := f.events + [TagEvent(h, f.next, d)];
    }
  }

  /** The loop of `runResponseCascade`, for any denylist. */
  method WalkResponseHooks(kind: Kind, hooks: seq<Hook>, header: HeaderMap, body: seq<byte>, status: int, send: SendFn)
    returns (blocked: bool, stop: Option<Stop>, rewritten: bool, workStatus: int, workBody: seq<byte>, events: seq<Event>)
    requires kind.isResponse
    modifies header
    ensures var end := After(kind, hooks, send, Start(old(header.entries), body, status), |hooks|);
      && header.entries == end.headers && events == end.events && stop == end.stop && blocked == end.stop.Some?
      && (!blocked ==> workBody == end.body && workStatus == end.status && rewritten == end.rewritten)
  {
    workBody, workStatus, rewritten, events := body, status, false, [];
    blocked, stop := false, None;
    ghost var start := Start(header.entries, body, status);
    ghost var g := start;
    var next := 0;
    var i := 0;
    while i < |hooks|
      invariant 0 <= i <= |hooks|
      invariant !blocked && stop.None?
      invariant g == After(kind, hooks, send, start, i)
      invariant g == Flow(header.entries, workBody, workStatus, rewritten, next, events, None)
    {
      var h := hooks[i];
      g := NextHook(kind, hooks, send, start, i, g);
      if h.filter(Get(header.entries, "Content-Type")) {
        var d := send(i, header.entries, workBody, workStatus);
        if d.action == "block" {
          events := events + [StopEvent(h, next, d)];
          blocked, stop := true, Some(Stop(d.statusCode, d.body));
          StoppedStaysStopped(kind, hooks, send, start, i + 1, |hooks|);
          return;
        }
        var f := Flow(header.entries, workBody, workStatus, rewritten, next, events, None);
        workStatus, workBody, events := ResponseHook(kind, h, header, d, f);
        rewritten := rewritten || d.action == "rewrite";
        next := next + 1;
      }
      i := i + 1;
    }
  }

  method RunRequestCascade(hooks: seq<Hook>, header: HeaderMap, body: seq<byte>, send: SendFn)
    returns (denied: bool, stop: Option<Stop>, newBody: seq<byte>, events: seq<Event>)
    modifies header
    ensures var end := After(REQUEST, hooks, send, Start(old(header.entries), body, 0), |hooks|);
      && header.entries == end.headers && newBody == end.body && events == end.events
      && stop == end.stop && denied == end.stop.Some?
  {
    denied, stop, newBody, events := WalkRequestHooks(REQUEST, hooks, header, body, send);
  }

  method RunResponseCascade(hooks: seq<Hook>, header: HeaderMap, body: seq<byte>, status: int, send: SendFn)
    returns (blocked: bool, stop: Option<Stop>, rewritten: bool, workStatus: int, workBody: seq<byte>, events: seq<Event>)
    modifies header
    ensures var end := After(RESPONSE, hooks, send, Start(old(header.entries), body, status), |hooks|);
      && header.entries == end.headers && events == end.events && stop == end.stop && blocked == end.stop.Some?
      && (!blocked ==> workBody == end.body && workStatus == end.status && rewritten == end.rewritten)
  {
    blocked, stop, rewritten, workStatus, workBody, events := WalkResponseHooks(RESPONSE, hooks, header, body, status, send);
  }

  lemma {:induction false} StoppedStaysStopped(kind: Kind, hooks: seq<Hook>, send: SendFn, f: Flow, j: nat, k: nat)
    requires j <= k <= |hooks| && After(kind, hooks, send, f, j).stop.Some?
    ensures After(kind, hooks, send, f, k) == After(kind, hooks, send, f, j)
    decreases k
  {
    if j < k {
      StoppedStaysStopped(kind, hooks, send, f, j, k - 1);
      assert After(kind, hooks, send, f, k - 1).stop.Some?;
    }
  }

  /** The hook at `k` is reached unstopped, passes its filter and decides the stop action. */
  ghost predicate StopsAt(kind: Kind, hooks: seq<Hook>, send: SendFn, f: Flow, k: nat)
    requires k < |hooks|
  {
    var g := After(kind, hooks, send, f, k);
    g.stop.None? && Matches(hooks[k], g) && DecisionAt(send, k, g).action == StopAction(kind.isResponse)
  }

  /** A hook that stops the cascade fixes the whole outcome: nothing after it counts. */
  lemma StopIsFinal(kind: Kind, hooks: seq<Hook>, send: SendFn, f: Flow, k: nat, n: nat)
    requires k < n <= |hooks| && StopsAt(kind, hooks, send, f, k)
    ensures var g := After(kind, hooks, send, f, k); var d := DecisionAt(send, k, g);
      After(kind, hooks, send, f, n) == Decide(kind, hooks[k], d, g) &&
      After(kind, hooks, send, f, n).stop == Some(Stop(d.statusCode, d.body))
  {
    StoppedStaysStopped(kind, hooks, send, f, k + 1, n);
  }

  /** A stopped cascade was stopped by one of its reached hooks. */
  lemma {:induction false} StopHasCause(kind: Kind, hooks: seq<Hook>, send: SendFn, f: Flow, n: nat) returns (k: nat)
    requires n <= |hooks| && f.stop.None? && After(kind, hooks, send, f, n).stop.Some?
    ensures k < n && StopsAt(kind, hooks, send, f, k)
  {
    if After(kind, hooks, send, f, n - 1).stop.Some? {
      k := StopHasCause(kind, hooks, send, f, n - 1);
    } else {
      k := n - 1;
    }
  }

  /** A cascade stops exactly when some reached hook stops it, and that hook is unique. */
  lemma StopsAtFirstStop(kind: Kind, hooks: seq<Hook>, send: SendFn, f: Flow, n: nat)
    requires n <= |hooks| && f.stop.None?
    ensures After(kind, hooks, send, f, n).stop.Some? <==> exists k :: 0 <= k < n && StopsAt(kind, hooks, send, f, k)
    ensures forall j, k :: 0 <= j < k < n && StopsAt(kind, hooks, send, f, j) ==> !StopsAt(kind, hooks, send, f, k)
  {
    if After(kind, hooks, send, f, n).stop.Some? {
      var k := StopHasCause(kind, hooks, send, f, n);
    }
    forall k | 0 <= k < n && StopsAt(kind, hooks, send, f, k) ensures After(kind, hooks, send, f, n).stop.Some? {
      StopIsFinal(kind, hooks, send, f, k, n);
    }
    forall j, k | 0 <= j < k < n && StopsAt(kind, hooks, send, f, j) ensures !StopsAt(kind, hooks, send, f, k) {
      StopIsFinal(kind, hooks, send, f, j, k);
    }
  }

  /** A reached hook whose middleware failed under any policy but "allow" denies (or blocks) the whole cascade. */
  lemma DenyPolicyFallbackStops(kind: Kind, hooks: seq<Hook>, send: SendFn, f: Flow, k: nat, onTimeout: string,
                                id: string, reason: string)
    requires f.stop.None? && k < |hooks| && onTimeout != "allow"
    requires var g := After(kind, hooks, send, f, k);
      g.stop.None? && Matches(hooks[k], g) && DecisionAt(send, k, g) == FallbackDecision(onTimeout, id, kind.isResponse, reason)
    ensures After(kind, hooks, send, f, |hooks|).stop == Some(Stop(if kind.isResponse then 502 else 403, None))
    ensures After(kind, hooks, send, f, |hooks|).headers == After(kind, hooks, send, f, k).headers
  {
    var g := After(kind, hooks, send, f, k);
    var d := DecisionAt(send, k, g);
    assert d.action == StopAction(kind.isResponse);
    assert StopsAt(kind, hooks, send, f, k);
    StopIsFinal(kind, hooks, send, f, k, |hooks|);
  }

  /** What one decision does to a header it may not rewrite, and to Content-Encoding. */
  lemma DecideKeepsProtected(kind: Kind, hook: Hook, d: Decision, g: Flow, name: string)
    requires name in kind.forbidden && name != "Content-Encoding"
    ensures SameAt(g.headers, Decide(kind, hook, d, g).headers, name)
    ensures forall e <- Decide(kind, hook, d, g).events :: e in g.events || name !in e.headersChanged
  {
    RewriteKeepsProtected(kind, d, g.headers, name);
    var t := Decide(kind, hook, d, g);
    if d.action != StopAction(kind.isResponse) && d.action == "rewrite" {
      assert t.events == g.events + [RewriteEvent(hook, g.next, d, g.headers, t.headers, g.body)];
    }
  }

  lemma RewriteKeepsProtected(kind: Kind, d: Decision, h: Headers, name: string)
    requires name in kind.forbidden && name != "Content-Encoding"
    ensures SameAt(h, RewriteHeaders(kind, d, h), name) && name !in DiffHeaderNames(h, RewriteHeaders(kind, d, h))
  {
    MergeTouchesOnlyNamed(kind.forbidden, h, d.headers, name);
    MergeTouchesOnlyNamed(kind.forbidden, h - {"Content-Encoding"}, d.headers, name);
  }

  /** No decision sequence changes a protected header, and no event reports one as changed. */
  lemma {:induction false} ProtectedHeadersUnchanged(kind: Kind, hooks: seq<Hook>, send: SendFn, h: Headers,
                                                     body: seq<byte>, status: int, n: nat, name: string)
    requires n <= |hooks| && name in kind.forbidden && name != "Content-Encoding"
    ensures var end := After(kind, hooks, send, Start(h, body, status), n);
      SameAt(h, end.headers, name) && forall e <- end.events :: name !in e.headersChanged
  {
    if n > 0 {
      ProtectedHeadersUnchanged(kind, hooks, send, h, body, status, n - 1, name);
      var g := After(kind, hooks, send, Start(h, body, status), n - 1);
      DecideKeepsProtected(kind, hooks[n - 1], DecisionAt(send, n - 1, g), g, name);
    }
  }

  /**
    Numbers strictly increase and stay below the next one; only a stopping event,
    and only as the last, denies or blocks.
   */
  ghost predicate WellNumbered(kind: Kind, f: Flow) {
    (forall i, j :: 0 <= i < j < |f.events| ==> f.events[i].sequence < f.events[j].sequence) &&
    (forall i :: 0 <= i < |f.events| ==> f.events[i].sequence < f.next + (if f.stop.Some? then 1 else 0)) &&
    (forall i :: 0 <= i < |f.events| ==> (f.events[i].action == "deny" || f.events[i].action == "block" ==>
       i == |f.events| - 1 && f.stop.Some?)) &&
    (f.stop.Some? ==> f.events != [] && f.events[|f.events| - 1].action == StopAction(kind.isResponse))
  }

  /** Appending one event numbered `next` keeps the numbering. */
  lemma AppendKeepsNumbering(kind: Kind, g: Flow, t: Flow, e: Event)
    requires g.stop.None? && WellNumbered(kind, g) && t.events == g.events + [e] && e.sequence == g.next
    requires if t.stop.Some? then t.next == g.next && e.action == StopAction(kind.isResponse)
             else t.next == g.next + 1 && e.action != "deny" && e.action != "block"
    ensures WellNumbered(kind, t)
  {
    forall i | 0 <= i < |g.events| ensures t.events[i] == g.events[i] {}
  }

  lemma DecideKeepsNumbering(kind: Kind, hook: Hook, d: Decision, g: Flow)
    requires g.stop.None? && WellNumbered(kind, g)
    ensures WellNumbered(kind, Decide(kind, hook, d, g)) && Decide(kind, hook, d, g).next <= g.next + 1
  {
    var t := Decide(kind, hook, d, g);
    if d.action == StopAction(kind.isResponse) {
      AppendKeepsNumbering(kind, g, t, StopEvent(hook, g.next, d));
    } else if d.action == "rewrite" {
      AppendKeepsNumbering(kind, g, t, t.events[|g.events|]);
    } else if d.tags != map[] {
      AppendKeepsNumbering(kind, g, t, TagEvent(hook, g.next, d));
    }
  }

  /** Event numbers strictly increase, and a deny or block can only be the last event. */
  lemma {:induction false} EventsWellNumbered(kind: Kind, hooks: seq<Hook>, send: SendFn, h: Headers, body: seq<byte>,
                                              status: int, n: nat)
    requires n <= |hooks|
    ensures WellNumbered(kind, After(kind, hooks, send, Start(h, body, status), n))
    ensures After(kind, hooks, send, Start(h, body, status), n).next <= n
  {
    if n > 0 {
      EventsWellNumbered(kind, hooks, send, h, body, status, n - 1);
      var g := After(kind, hooks, send, Start(h, body, status), n - 1);
      if g.stop.None? { DecideKeepsNumbering(kind, hooks[n - 1], DecisionAt(send, n - 1, g), g); }
    }
  }

  /** The body is the upstream one under the upstream encoding, or there is no Content-Encoding. */
  ghost predicate EncodingOk(h: Headers, body: seq<byte>, f: Flow) {
    (f.body == body && SameAt(h, f.headers, "Content-Encoding")) || "Content-Encoding" !in f.headers
  }

  lemma DecideKeepsEncoding(kind: Kind, hook: Hook, d: Decision, g: Flow, h: Headers, body: seq<byte>)
    requires kind.isResponse && EncodingOk(h, body, g) && (d.action == "rewrite" ==> !Names(d.headers, "Content-Encoding"))
    ensures EncodingOk(h, body, Decide(kind, hook, d, g))
  {
    MergeTouchesOnlyNamed(kind.forbidden, g.headers, d.headers, "Content-Encoding");
    MergeTouchesOnlyNamed(kind.forbidden, g.headers - {"Content-Encoding"}, d.headers, "Content-Encoding");
  }

  /** The hook at `k`, if the cascade reaches and matches it, does not rewrite Content-Encoding. */
  ghost predicate LeavesEncoding(kind: Kind, hooks: seq<Hook>, send: SendFn, f: Flow, k: nat)
    requires k < |hooks|
  {
    var g := After(kind, hooks, send, f, k);
    g.stop.None? && Matches(hooks[k], g) && DecisionAt(send, k, g).action == "rewrite" ==>
      !Names(DecisionAt(send, k, g).headers, "Content-Encoding")
  }

  /**
    If no rewrite that takes place names Content-Encoding, the body going
    downstream is either the upstream one or carries no Content-Encoding header.
   */
  lemma {:induction false} BodyMatchesEncoding(kind: Kind, hooks: seq<Hook>, send: SendFn, h: Headers, body: seq<byte>,
                                               status: int, n: nat)
    requires n <= |hooks| && kind.isResponse
    requires forall k :: 0 <= k < n ==> LeavesEncoding(kind, hooks, send, Start(h, body, status), k)
    ensures EncodingOk(h, body, After(kind, hooks, send, Start(h, body, status), n))
  {
    if n > 0 {
      BodyMatchesEncoding(kind, hooks, send, h, body, status, n - 1);
      var g := After(kind, hooks, send, Start(h, body, status), n - 1);
      assert LeavesEncoding(kind, hooks, send, Start(h, body, status), n - 1);
      if g.stop.None? && Matches(hooks[n - 1], g) {
        DecideKeepsEncoding(kind, hooks[n - 1], DecisionAt(send, n - 1, g), g, h, body);
      }
    }
  }

  // ----- What one hook does to the exchange -----

  /** The first Content-Type value of the working headers, or nothing. */
  ghost predicate ContentTypeIs(h: Headers, contentType: string) {
    ("Content-Type" in h && h["Content-Type"] != [] ==> contentType == h["Content-Type"][0]) &&
    ("Content-Type" !in h || h["Content-Type"] == [] ==> contentType == "")
  }

  /** The cascade stands at `g` before hook `k`, whose filter lets it through, and `d` is the decision received. */
  ghost predicate Reaches(kind: Kind, hooks: seq<Hook>, send: SendFn, f: Flow, k: nat, g: Flow, d: Decision) {
    k < |hooks| && g == After(kind, hooks, send, f, k) && g.stop.None? &&
    (exists c: string :: ContentTypeIs(g.headers, c) && hooks[k].filter(c)) &&
    d == send(k, g.headers, g.body, g.status)
  }

  lemma ReachedDecides(kind: Kind, hooks: seq<Hook>, send: SendFn, f: Flow, k: nat, g: Flow, d: Decision)
    requires Reaches(kind, hooks, send, f, k, g, d)
    ensures After(kind, hooks, send, f, k + 1) == Decide(kind, hooks[k], d, g)
  {
    var c: string :| ContentTypeIs(g.headers, c) && hooks[k].filter(c);
    assert c == Get(g.headers, "Content-Type");
  }

  /** A hook whose filter rejects the content type is skipped without a trace. */
  lemma FilteredOutSkipped(kind: Kind, hooks: seq<Hook>, send: SendFn, f: Flow, k: nat, contentType: string)
    requires k < |hooks| && ContentTypeIs(After(kind, hooks, send, f, k).headers, contentType)
    requires !hooks[k].filter(contentType)
    ensures After(kind, hooks, send, f, k + 1) == After(kind, hooks, send, f, k)
  {
    assert contentType == Get(After(kind, hooks, send, f, k).headers, "Content-Type");
  }

  /** Everything but the numbering and the events is as before. */
  predicate SameExchange(g: Flow, t: Flow) {
    t.headers == g.headers && t.body == g.body && t.status == g.status && t.rewritten == g.rewritten && t.stop == g.stop
  }

  /** Exactly one event was added, and it is numbered and signed as the hook's. */
  ghost predicate OneEvent(hook: Hook, g: Flow, t: Flow, e: Event, action: string, tags: map<string, string>) {
    t.events == g.events + [e] && e.sequence == g.next && e.name == hook.name && e.url == hook.url &&
    e.action == action && e.tags == tags
  }

  /** A request is denied by "deny" and by nothing else, a response blocked by "block" and by nothing else. */
  lemma OnlyStopWordsStop(kind: Kind, hooks: seq<Hook>, send: SendFn, f: Flow, k: nat, g: Flow, d: Decision)
    requires Reaches(kind, hooks, send, f, k, g, d)
    ensures var t := After(kind, hooks, send, f, k + 1);
      (t.stop.Some? <==> (d.action == "deny" && !kind.isResponse) || (d.action == "block" && kind.isResponse)) &&
      (t.stop.Some? ==> t.stop.value.status == d.statusCode && t.stop.value.body == d.body && t.headers == g.headers &&
                        t.events != [] && OneEvent(hooks[k], g, t, t.events[|g.events|], d.action, d.tags))
  {
    ReachedDecides(kind, hooks, send, f, k, g, d);
  }

  /**
    A rewrite passes its body on if it has one, its status if it is for a
    response and not 0, and one event naming exactly the headers that differ.
   */
  lemma RewriteGoesDownstream(kind: Kind, hooks: seq<Hook>, send: SendFn, f: Flow, k: nat, g: Flow, d: Decision)
    requires Reaches(kind, hooks, send, f, k, g, d) && d.action == "rewrite"
    ensures var t := After(kind, hooks, send, f, k + 1);
      t.stop.None? && t.next == g.next + 1 && (kind.isResponse ==> t.rewritten)
    ensures var t := After(kind, hooks, send, f, k + 1);
      (d.body.Some? ==> t.body == d.body.value) && (d.body.None? ==> t.body == g.body) &&
      (kind.isResponse && d.statusCode != 0 ==> t.status == d.statusCode) &&
      (!kind.isResponse || d.statusCode == 0 ==> t.status == g.status)
    ensures var t := After(kind, hooks, send, f, k + 1);
      t.events != [] && OneEvent(hooks[k], g, t, t.events[|g.events|], "rewrite", d.tags) &&
      t.events[|g.events|].bodyRewritten == (t.body != g.body) &&
      forall name :: name in t.events[|g.events|].headersChanged <==> !SameAt(g.headers, t.headers, name)
  {
    ReachedDecides(kind, hooks, send, f, k, g, d);
  }

  /** A header that a rewrite names, outside the denylist, has one of the rewrite's values downstream. */
  lemma RewriteSetsHeaders(kind: Kind, hooks: seq<Hook>, send: SendFn, f: Flow, k: nat, g: Flow, d: Decision,
                           name: string)
    requires Reaches(kind, hooks, send, f, k, g, d) && d.action == "rewrite"
    ensures var t := After(kind, hooks, send, f, k + 1).headers;
      name !in kind.forbidden && Names(d.headers, name) ==> name in t && Gives(d.headers, name, t[name])
    ensures var t := After(kind, hooks, send, f, k + 1).headers;
      (name in kind.forbidden || !Names(d.headers, name)) && name != "Content-Encoding" ==> SameAt(g.headers, t, name)
    ensures var t := After(kind, hooks, send, f, k + 1).headers;
      kind.isResponse && d.body.Some? && !Names(d.headers, "Content-Encoding") ==> "Content-Encoding" !in t
  {
    ReachedDecides(kind, hooks, send, f, k, g, d);
    var h := if kind.isResponse && d.body.Some? then g.headers - {"Content-Encoding"} else g.headers;
    MergeTouchesOnlyNamed(kind.forbidden, h, d.headers, name);
    MergeTouchesOnlyNamed(kind.forbidden, h, d.headers, "Content-Encoding");
  }

  /** Any other action leaves the exchange alone; only tags are worth an event. */
  lemma OtherActionsPass(kind: Kind, hooks: seq<Hook>, send: SendFn, f: Flow, k: nat, g: Flow, d: Decision)
    requires Reaches(kind, hooks, send, f, k, g, d) && d.action != "rewrite"
    requires if kind.isResponse then d.action != "block" else d.action != "deny"
    ensures var t := After(kind, hooks, send, f, k + 1);
      SameExchange(g, t) && t.next == g.next + 1 && (d.tags == map[] ==> t.events == g.events)
    ensures var t := After(kind, hooks, send, f, k + 1); var told := if d.action == "passthrough" then "tagged-passthrough" else "tagged-allow";
      d.tags != map[] ==> t.events != [] && OneEvent(hooks[k], g, t, t.events[|g.events|], told, d.tags)
  {
    ReachedDecides(kind, hooks, send, f, k, g, d);
  }

  /** A failed middleware under the policy "allow" leaves everything but the event counter as it is. */
  lemma AllowPolicyFallbackPasses(kind: Kind, hooks: seq<Hook>, send: SendFn, f: Flow, k: nat, id: string, reason: string)
    requires k < |hooks|
    requires var g := After(kind, hooks, send, f, k);
      g.stop.None? && Matches(hooks[k], g) && DecisionAt(send, k, g) == FallbackDecision("allow", id, kind.isResponse, reason)
    ensures var g := After(kind, hooks, send, f, k);
      After(kind, hooks, send, f, k + 1) == g.(next := g.next + 1)
  {
    var g := After(kind, hooks, send, f, k);
    assert ContentTypeIs(g.headers, Get(g.headers, "Content-Type"));
    OtherActionsPass(kind, hooks, send, f, k, g, DecisionAt(send, k, g));
  }

  /** The hook at `k`, if reached, falls back under the policy "allow". */
  ghost predicate FailsOpen(kind: Kind, hooks: seq<Hook>, send: SendFn, f: Flow, k: nat) {
    forall g, d :: Reaches(kind, hooks, send, f, k, g, d) ==> d == FallbackDecision("allow", d.id, kind.isResponse, d.fallback)
  }

  /** With every middleware gone and the policy "allow", the exchange goes through untouched and unreported. */
  lemma {:induction false} AllFailOpen(kind: Kind, hooks: seq<Hook>, send: SendFn, h: Headers, body: seq<byte>,
                                       status: int, n: nat)
    requires n <= |hooks| && forall k :: 0 <= k < n ==> FailsOpen(kind, hooks, send, Start(h, body, status), k)
    ensures var end := After(kind, hooks, send, Start(h, body, status), n);
      end.headers == h && end.body == body && end.status == status && !end.rewritten && end.events == [] && end.stop.None?
  {
    if n > 0 {
      var f := Start(h, body, status);
      AllFailOpen(kind, hooks, send, h, body, status, n - 1);
      var g := After(kind, hooks, send, f, n - 1);
      var c, d := Get(g.headers, "Content-Type"), DecisionAt(send, n - 1, g);
      assert ContentTypeIs(g.headers, c);
      if hooks[n - 1].filter(c) {
        assert Reaches(kind, hooks, send, f, n - 1, g, d);
        assert FailsOpen(kind, hooks, send, f, n - 1);
        AllowPolicyFallbackPasses(kind, hooks, send, f, n - 1, d.id, d.fallback);
      }
    }
  }

  // ----- The denylist -----

  /** From position `n` on, a letter is upper case exactly at the start and after a hyphen. */
  predicate TitleCased(s: string, n: nat)
    requires n <= |s|
    decreases |s| - n
  {
    n == |s| || ((if n == 0 || s[n - 1] == '-' then !IsLower(s[n]) else !IsUpper(s[n])) && TitleCased(s, n + 1))
  }

  lemma {:induction false} TitleCaseFixes(s: string, n: nat)
    requires n <= |s| && TitleCased(s, n)
    ensures TitleCase(s[n..], n == 0 || s[n - 1] == '-') == s[n..]
    decreases |s| - n
  {
    if n < |s| {
      TitleCaseFixes(s, n + 1);
      assert s[n..][1..] == s[n + 1..] && s[n..] == [s[n]] + s[n + 1..];
    }
  }

  predicate CanonicalName(s: string) { IsToken(s) && TitleCased(s, 0) }

  /** Every spelling of a token in title case has that token as its canonical form. */
  lemma SpellingOf(name: string, spelling: string)
    requires CanonicalName(name) && EqualFold(name, spelling)
    ensures CanonicalHeaderKey(spelling) == name
  {
    TitleCaseFixes(name, 0);
    assert name[0..] == name;
    CanonicalIgnoresCase(name, spelling);
  }

  lemma ShortNamesCanonical()
    ensures CanonicalName("Connection") && CanonicalName("Keep-Alive") && CanonicalName("Te") && CanonicalName("Trailer")
    ensures CanonicalName("Upgrade") && CanonicalName("Cookie") && CanonicalName("Set-Cookie") && CanonicalName("Host")
  {
  }

  lemma ProxyNamesCanonical()
    ensures CanonicalName("Proxy-Authenticate") && CanonicalName("Proxy-Authorization")
  {
    assert TitleCased("Proxy-Authenticate", 12) && TitleCased("Proxy-Authorization", 12);
    assert TitleCased("Proxy-Authenticate", 6) && TitleCased("Proxy-Authorization", 6);
  }

  lemma LongNamesCanonical()
    ensures CanonicalName("Transfer-Encoding") && CanonicalName("Authorization")
  {
    assert TitleCased("Transfer-Encoding", 11) && TitleCased("Authorization", 6);
    assert TitleCased("Transfer-Encoding", 6);
  }

  /** Whatever the spelling, a rewrite entry for one of the twelve protected headers meets the denylist. */
  lemma ProtectedInEverySpelling(name: string, spelling: string)
    requires name in {"Connection", "Keep-Alive", "Te", "Trailer", "Upgrade", "Cookie", "Set-Cookie", "Host",
                      "Proxy-Authenticate", "Proxy-Authorization", "Transfer-Encoding", "Authorization"}
    requires EqualFold(name, spelling)
    ensures CanonicalHeaderKey(spelling) == name && name in FORBIDDEN_REWRITE_HEADERS
  {
    ShortNamesCanonical();
    ProxyNamesCanonical();
    LongNamesCanonical();
    SpellingOf(name, spelling);
  }
}
