/** The keys under which the conversation assembler files sessions, and why they do not collide. */
module SessionKeys {

  /** The decimal form of a number, as `%d` prints it. */
  function Dec(n: nat): (r: string)
    ensures |r| > 0 && (|r| == 1 <==> n < 10) && forall c <- r :: '0' <= c <= '9'
  {
    if n < 10 then [Digit(n)] else Dec(n / 10) + [Digit(n % 10)]
  }

  function Digit(d: nat): (c: char)
    requires d < 10
    ensures '0' <= c <= '9' && c as int == '0' as int + d
  {
    ('0' as int + d) as char
  }

  lemma {:induction false} DecInjective(a: nat, b: nat)
    requires Dec(a) == Dec(b)
    ensures a == b
    decreases a + b
  {
    var s, t := Dec(a), Dec(b);
    assert s[|s| - 1] == Digit(a % 10) && t[|t| - 1] == Digit(b % 10);
    if a >= 10 {
      assert s[..|s| - 1] == Dec(a / 10) && t[..|t| - 1] == Dec(b / 10);
      DecInjective(a / 10, b / 10);
    }
  }

  /** A separator splits a string in one way when it is not in the left part. */
  lemma SplitsOnce(a: string, b: string, x: string, y: string, c: char)
    requires a + [c] + b == x + [c] + y && c !in a && c !in x
    ensures a == x && b == y
  {
    var s, t := a + [c] + b, x + [c] + y;
    assert s[|a|] == c && t[|x|] == c;
    assert forall k :: 0 <= k < |x| ==> t[k] == x[k] && x[k] in x;
    assert forall k :: 0 <= k < |a| ==> s[k] == a[k] && a[k] in a;
    assert s[..|a|] == a && t[..|x|] == x;
    assert s[|a| + 1..] == b && t[|x| + 1..] == y;
  }

  lemma SamePrefixGone(p: string, a: string, b: string)
    requires p + a == p + b
    ensures a == b
  {
    assert (p + a)[|p|..] == a && (p + b)[|p|..] == b;
  }

  // ----- Keys -----

  const HEURISTIC: string := "heuristic_"
  const SUBAGENT: string := "subagent_"

  /** `heuristic_%d_%d`. */
  function FakeKey(first: nat, last: nat): (r: string)
    ensures r != ""
  {
    HEURISTIC + (Dec(first) + ['_'] + Dec(last))
  }

  /** `subagent_%d`. */
  function ThreadKey(length: nat): string { SUBAGENT + Dec(length) }

  /** `%s/%s_%d` of an invocation of a subagent thread. */
  function ChildKey(sid: string, thread: string, i: nat): string { sid + ['/'] + (thread + ['_'] + Dec(i)) }

  /** `%s/subagent_%d` of a remapped session. */
  function RemapKey(sid: string, i: nat): string { sid + ['/'] + (SUBAGENT + Dec(i)) }

  predicate SlashFree(s: string) { '/' !in s }

  /** The part of a key before its first slash. */
  function Base(key: string): (r: string)
    ensures SlashFree(r) && |r| <= |key| && r == key[..|r|]
    ensures if SlashFree(key) then r == key else |r| < |key| && key[|r|] == '/'
  {
    if key == "" || key[0] == '/' then "" else [key[0]] + Base(key[1..])
  }

  lemma FakeKeyInjective(a: nat, b: nat, x: nat, y: nat)
    requires FakeKey(a, b) == FakeKey(x, y)
    ensures a == x && b == y
  {
    SamePrefixGone(HEURISTIC, Dec(a) + ['_'] + Dec(b), Dec(x) + ['_'] + Dec(y));
    SplitsOnce(Dec(a), Dec(b), Dec(x), Dec(y), '_');
    DecInjective(a, x);
    DecInjective(b, y);
  }

  /** The base of a key made from a slash-free session id is that id. */
  lemma BaseOf(sid: string, rest: string)
    requires SlashFree(sid)
    ensures Base(sid + ['/'] + rest) == sid
  {
    var key := sid + ['/'] + rest;
    assert key[|sid|] == '/';
    var b := Base(key);
    assert key == b + ['/'] + key[|b| + 1..];
    SplitsOnce(b, key[|b| + 1..], sid, rest, '/');
  }

  /** Whatever follows a slash does not change the base. */
  lemma {:induction false} BaseInFront(a: string, rest: string)
    ensures Base(a + ['/'] + rest) == Base(a)
    decreases |a|
  {
    if a != "" && a[0] != '/' {
      assert (a + ['/'] + rest)[1..] == a[1..] + ['/'] + rest;
      BaseInFront(a[1..], rest);
    }
  }

  lemma NoneBehind(a: string, b: string, c: char, k: nat)
    requires c !in b && |a| < k < |a + [c] + b|
    ensures (a + [c] + b)[k] != c
  {
    assert (a + [c] + b)[k] == b[k - |a| - 1] && b[k - |a| - 1] in b;
  }

  /** A separator splits a string in one way when it is not in the right part. */
  lemma SplitsLast(a: string, b: string, x: string, y: string, c: char)
    requires a + [c] + b == x + [c] + y && c !in b && c !in y
    ensures a == x && b == y
  {
    var s, t := a + [c] + b, x + [c] + y;
    assert s[|a|] == c && t[|x|] == c;
    forall k | |a| < k < |s| ensures s[k] != c { NoneBehind(a, b, c, k); }
    forall k | |x| < k < |t| ensures t[k] != c { NoneBehind(x, y, c, k); }
    assert |a| == |x|;
    assert s[..|a|] == a && t[..|x|] == x;
    assert s[|a| + 1..] == b && t[|x| + 1..] == y;
  }

  /** Invocation keys tell session, thread and number apart. */
  lemma ChildKeyInjective(s: string, a: nat, i: nat, t: string, b: nat, j: nat)
    requires ChildKey(s, ThreadKey(a), i) == ChildKey(t, ThreadKey(b), j)
    ensures s == t && a == b && i == j
  {
    var x, y := Dec(a) + ['_'] + Dec(i), Dec(b) + ['_'] + Dec(j);
    assert ThreadKey(a) + ['_'] + Dec(i) == SUBAGENT + x && ThreadKey(b) + ['_'] + Dec(j) == SUBAGENT + y;
    SplitsLast(s, SUBAGENT + x, t, SUBAGENT + y, '/');
    SamePrefixGone(SUBAGENT, x, y);
    SplitsOnce(Dec(a), Dec(i), Dec(b), Dec(j), '_');
    DecInjective(a, b);
    DecInjective(i, j);
  }

  lemma UnderscoreTells(p: string, u: string, v: string, w: string)
    requires '_' !in u
    ensures p + u != p + v + ['_'] + w
  {
    assert (p + u)[|p|..] == u;
    var t := (p + v + ['_'] + w)[|p|..];
    assert t == v + ['_'] + w && t[|v|] == '_';
  }

  lemma DifferentTails(s: string, u: string, t: string, v: string)
    requires '/' !in u && '/' !in v && u != v
    ensures s + ['/'] + u != t + ['/'] + v
  {
    if s + ['/'] + u == t + ['/'] + v { SplitsLast(s, u, t, v, '/'); }
  }

  /** A remapped key is never an invocation key. */
  lemma RemapKeyNotChild(s: string, k: nat, t: string, b: nat, j: nat)
    ensures RemapKey(s, k) != ChildKey(t, ThreadKey(b), j)
  {
    UnderscoreTells(SUBAGENT, Dec(k), Dec(b), Dec(j));
    DifferentTails(s, SUBAGENT + Dec(k), t, ThreadKey(b) + ['_'] + Dec(j));
  }

  lemma RemapKeyInjective(s: string, i: nat, t: string, j: nat)
    requires RemapKey(s, i) == RemapKey(t, j)
    ensures s == t && i == j
  {
    SplitsLast(s, SUBAGENT + Dec(i), t, SUBAGENT + Dec(j), '/');
    SamePrefixGone(SUBAGENT, Dec(i), Dec(j));
    DecInjective(i, j);
  }

  /** A key that session `sid` makes: its own id, or one of its invocations. */
  ghost predicate OwnKey(sid: string, key: string) {
    key == sid || exists n: nat, i: nat :: key == ChildKey(sid, ThreadKey(n), i)
  }

  /** All keys of a session have its base. */
  lemma OwnKeyBase(sid: string, key: string)
    requires OwnKey(sid, key)
    ensures Base(key) == Base(sid)
  {
    if key != sid {
      var n: nat, i: nat :| key == ChildKey(sid, ThreadKey(n), i);
      BaseInFront(sid, ThreadKey(n) + ['_'] + Dec(i));
    }
  }

  /** The keys as they are spelled. */
  lemma KeysSpelled()
    ensures FakeKey(2, 17) == "heuristic_2_17" && ThreadKey(905) == "subagent_905"
    ensures ChildKey("s", ThreadKey(905), 1) == "s/subagent_905_1" && RemapKey("s", 3) == "s/subagent_3"
  {
    assert Dec(2) == "2" && Dec(1) == "1" && Dec(3) == "3";
    assert Dec(17) == Dec(1) + [Digit(7)] && Dec(90) == Dec(9) + [Digit(0)] && Dec(905) == Dec(90) + [Digit(5)];
    assert Dec(17) == "17" && Dec(9) == "9" && Dec(905) == "905";
  }

  /** Two sessions share a key only when the id of one is an invocation key of the other. */
  lemma SharedKey(s: string, t: string, key: string)
    requires OwnKey(s, key) && OwnKey(t, key) && s != t
    ensures OwnKey(s, t) || OwnKey(t, s)
  {
    if key != s && key != t {
      var n: nat, i: nat :| key == ChildKey(s, ThreadKey(n), i);
      var m: nat, j: nat :| key == ChildKey(t, ThreadKey(m), j);
      ChildKeyInjective(s, n, i, t, m, j);
    }
  }

  /** A key the remap could make. */
  ghost predicate RemapForm(key: string) { exists s, i: nat :: key == RemapKey(s, i) }

  lemma OwnKeyNotRemapped(sid: string, key: string)
    requires OwnKey(sid, key) && !RemapForm(sid)
    ensures !RemapForm(key)
  {
    if key != sid {
      var n: nat, i: nat :| key == ChildKey(sid, ThreadKey(n), i);
      forall s, k: nat ensures key != RemapKey(s, k) { RemapKeyNotChild(s, k, sid, n, i); }
    }
  }
}
