/**
  Endpoint rules and their SQL LIKE pre-filter: `Match`, `AllURLPatterns` and
  `extractPath` of endpoint_registry.go, LIKE as SQLite evaluates it, and
  `escapeLikePattern` of conversation_assembler.go.
 */
module EndpointRegistry {
  import opened Glob

  // ----- LIKE -----

  /** LIKE compares ASCII letters without regard to case. */
  function Fold(c: char): char { if 'A' <= c <= 'Z' then c - 'A' + 'a' else c }

  predicate SameChar(a: char, b: char) { Fold(a) == Fold(b) }

  /** `text LIKE pattern`: % is any string, _ any one character. */
  ghost predicate Like(p: string, s: string)
    decreases |p|
  {
    if p == "" then s == ""
    else if p[0] == '%' then exists k :: 0 <= k <= |s| && Like(p[1..], s[k..])
    else s != "" && (p[0] == '_' || SameChar(p[0], s[0])) && Like(p[1..], s[1..])
  }

  /** `text LIKE pattern ESCAPE '\'`. */
  ghost predicate LikeEscape(p: string, s: string)
    decreases |p|
  {
    if p == "" then s == ""
    else if p[0] == '\\' then |p| > 1 && s != "" && SameChar(p[1], s[0]) && LikeEscape(p[2..], s[1..])
    else if p[0] == '%' then exists k :: 0 <= k <= |s| && LikeEscape(p[1..], s[k..])
    else s != "" && (p[0] == '_' || SameChar(p[0], s[0])) && LikeEscape(p[1..], s[1..])
  }

  lemma {:induction false} LikeConcat(p: string, s: string, q: string, t: string)
    requires Like(p, s) && Like(q, t)
    ensures Like(p + q, s + t)
    decreases |p|
  {
    if p == "" {
      assert p + q == q && s + t == t;
    } else {
      assert (p + q)[1..] == p[1..] + q;
      if p[0] == '%' {
        var k :| 0 <= k <= |s| && Like(p[1..], s[k..]);
        LikeConcat(p[1..], s[k..], q, t);
        assert (s + t)[k..] == s[k..] + t;
      } else {
        LikeConcat(p[1..], s[1..], q, t);
        assert (s + t)[1..] == s[1..] + t;
      }
    }
  }

  lemma LikeAnything(s: string)
    ensures Like("%", s)
  {
    assert s[|s|..] == "" && Like("", s[|s|..]);
  }

  // ----- Escaping -----

  /** `strings.ReplaceAll` with a one-character pattern. */
  function ReplaceAll(s: string, c: char, rep: string): string {
    if s == "" then "" else (if s[0] == c then rep else [s[0]]) + ReplaceAll(s[1..], c, rep)
  }

  function EscapeChar(c: char): string {
    if c == '\\' || c == '%' || c == '_' then ['\\', c] else [c]
  }

  function EscapeEach(s: string): string {
    if s == "" then "" else EscapeChar(s[0]) + EscapeEach(s[1..])
  }

  /** `escapeLikePattern`, with its three successive replacements. */
  function EscapeLikePattern(s: string): string {
    ReplaceAll(ReplaceAll(ReplaceAll(s, '\\', "\\\\"), '%', "\\%"), '_', "\\_")
  }

  lemma {:induction false} ReplaceAllConcat(a: string, b: string, c: char, rep: string)
    ensures ReplaceAll(a + b, c, rep) == ReplaceAll(a, c, rep) + ReplaceAll(b, c, rep)
    decreases |a|
  {
    if a == "" {
      assert a + b == b;
    } else {
      ReplaceAllConcat(a[1..], b, c, rep);
      assert (a + b)[1..] == a[1..] + b;
      var one, x, y := if a[0] == c then rep else [a[0]], ReplaceAll(a[1..], c, rep), ReplaceAll(b, c, rep);
      assert one + (x + y) == one + x + y;
    }
  }

  lemma ReplaceOne(x: char, c: char, rep: string)
    ensures ReplaceAll([x], c, rep) == if x == c then rep else [x]
  {
    assert [x][1..] == "";
    assert ReplaceAll("", c, rep) == "";
  }

  lemma ReplaceTwo(x: char, y: char, c: char, rep: string)
    requires x != c
    ensures ReplaceAll([x, y], c, rep) == [x] + (if y == c then rep else [y])
  {
    assert [x, y] == [x] + [y];
    ReplaceAllConcat([x], [y], c, rep);
    ReplaceOne(x, c, rep);
    ReplaceOne(y, c, rep);
  }

  /** The three replacements in this order act on each character alone. */
  lemma EscapeOne(x: char)
    ensures EscapeLikePattern([x]) == EscapeChar(x)
  {
    ReplaceOne(x, '\\', "\\\\");
    if x == '\\' {
      ReplaceTwo('\\', '\\', '%', "\\%");
      ReplaceTwo('\\', '\\', '_', "\\_");
    } else {
      ReplaceOne(x, '%', "\\%");
      if x == '%' {
        ReplaceTwo('\\', '%', '_', "\\_");
      } else {
        ReplaceOne(x, '_', "\\_");
      }
    }
  }

  lemma {:induction false} EscapeIsPerCharacter(s: string)
    ensures EscapeLikePattern(s) == EscapeEach(s)
    decreases |s|
  {
    if s != "" {
      var a, b := [s[0]], s[1..];
      assert s == a + b;
      ReplaceAllConcat(a, b, '\\', "\\\\");
      var a1, b1 := ReplaceAll(a, '\\', "\\\\"), ReplaceAll(b, '\\', "\\\\");
      ReplaceAllConcat(a1, b1, '%', "\\%");
      ReplaceAllConcat(ReplaceAll(a1, '%', "\\%"), ReplaceAll(b1, '%', "\\%"), '_', "\\_");
      EscapeOne(s[0]);
      EscapeIsPerCharacter(b);
    }
  }

  predicate SameText(a: string, b: string) {
    |a| == |b| && forall i :: 0 <= i < |a| ==> SameChar(a[i], b[i])
  }

  lemma SameTextFront(s: string, t: string)
    requires 0 < |s| <= |t|
    ensures SameText(s, t[..|s|]) <==> SameChar(s[0], t[0]) && SameText(s[1..], t[1..][..|s| - 1])
  {
    var a, b := t[..|s|], t[1..][..|s| - 1];
    assert a[0] == t[0] && forall i :: 0 <= i < |s| - 1 ==> s[1..][i] == s[i + 1] && b[i] == a[i + 1];
    if SameChar(s[0], t[0]) && SameText(s[1..], b) {
      forall i | 0 <= i < |s| ensures SameChar(s[i], a[i]) {
        if i > 0 { assert SameChar(s[1..][i - 1], b[i - 1]); }
      }
    }
  }

  /** An escaped character consumes exactly one character equal to it. */
  lemma EscapedStep(c: char, r: string, t: string)
    ensures LikeEscape(EscapeChar(c) + r, t) <==> t != "" && SameChar(c, t[0]) && LikeEscape(r, t[1..])
  {
    assert (EscapeChar(c) + r)[|EscapeChar(c)|..] == r;
  }

  /** The literal front of a pattern consumes exactly a text equal to it up to LIKE's comparison. */
  lemma {:induction false} EscapedPrefix(s: string, q: string, t: string)
    ensures LikeEscape(EscapeEach(s) + q, t) <==>
      |s| <= |t| && SameText(s, t[..|s|]) && LikeEscape(q, t[|s|..])
    decreases |s|
  {
    if s == "" {
      assert EscapeEach(s) + q == q && t[0..] == t;
    } else {
      EscapedStep(s[0], EscapeEach(s[1..]) + q, t);
      assert EscapeEach(s) + q == EscapeChar(s[0]) + (EscapeEach(s[1..]) + q);
      if t != "" {
        EscapedPrefix(s[1..], q, t[1..]);
        if |s| <= |t| {
          SameTextFront(s, t);
          assert t[1..][|s| - 1..] == t[|s|..];
        }
      }
    }
  }

  /** An escaped string matches itself and nothing else, up to LIKE's character comparison. */
  lemma EscapedIsLiteral(s: string, t: string)
    ensures LikeEscape(EscapeLikePattern(s), t) <==> SameText(s, t)
  {
    EscapeIsPerCharacter(s);
    EscapedPrefix(s, "", t);
    assert EscapeEach(s) + "" == EscapeEach(s);
    if |s| <= |t| {
      assert t[|s|..] == "" <==> |s| == |t|;
      if |s| == |t| { assert t[..|s|] == t; }
    }
  }

  predicate ContainedAt(s: string, t: string, k: int) {
    0 <= k <= |t| - |s| && SameText(s, t[k..k + |s|])
  }

  /** Between two percent signs it matches exactly the texts that contain it. */
  lemma EscapedIsContained(s: string, t: string)
    ensures LikeEscape("%" + EscapeLikePattern(s) + "%", t) <==> exists k :: ContainedAt(s, t, k)
  {
    EscapeIsPerCharacter(s);
    var p := "%" + EscapeLikePattern(s) + "%";
    assert p[1..] == EscapeEach(s) + "%";
    forall k | 0 <= k <= |t| ensures LikeEscape(p[1..], t[k..]) <==> ContainedAt(s, t, k) {
      EscapedPrefix(s, "%", t[k..]);
      if |s| <= |t[k..]| {
        var u := t[k..][|s|..];
        assert u[|u|..] == "" && LikeEscape("", u[|u|..]);
        assert LikeEscape("%", u);
        assert t[k..][..|s|] == t[k..k + |s|];
      }
    }
  }

  // ----- Rules -----

  datatype Rule = Rule(hostPattern: string, pathPattern: string, meth: string, decoder: string)

  /** The path of a URL as `extractPath` sees it. */
  function ExtractPath(url: string): string { PathIn(AfterScheme(url)) }

  function AfterScheme(url: string): string {
    var i := Find(url, "://");
    if i >= 0 then url[i + 3..] else url
  }

  function PathIn(rest: string): string {
    var j := Find(rest, "/");
    if j < 0 then "/" else BeforeQuery(rest[j..])
  }

  function BeforeQuery(path: string): string {
    var q := Find(path, "?");
    if q >= 0 then path[..q] else path
  }

  ghost predicate Accepts(r: Rule, url: string, meth: string, host: string) {
    (r.meth == "*" || r.meth == meth) && Means(r.hostPattern, host) && Means(r.pathPattern, ExtractPath(url))
  }

  ghost predicate FirstAccepting(rules: seq<Rule>, url: string, meth: string, host: string, i: nat) {
    i < |rules| && Accepts(rules[i], url, meth, host) && forall k :: 0 <= k < i ==> !Accepts(rules[k], url, meth, host)
  }

  function LikePattern(r: Rule): string {
    "%" + ReplaceAll(r.hostPattern, '*', "%") + "%" + ReplaceAll(r.pathPattern, '*', "%") + "%"
  }

  /** What `Match` answers: the decoder of the first rule that accepts, or "" when none does. */
  ghost predicate Matched(rules: seq<Rule>, url: string, meth: string, host: string, name: string) {
    (exists i: nat :: FirstAccepting(rules, url, meth, host, i) && name == rules[i].decoder) ||
    (name == "" && forall r <- rules :: !Accepts(r, url, meth, host))
  }

  /** Exactly the rules' patterns. */
  ghost predicate PatternsOf(rules: seq<Rule>, patterns: seq<string>) {
    (forall i :: 0 <= i < |rules| ==> LikePattern(rules[i]) in patterns) &&
    (forall p <- patterns :: exists i :: 0 <= i < |rules| && LikePattern(rules[i]) == p)
  }

  class Registry {
    var rules: seq<Rule>

    constructor (rules: seq<Rule>)
      ensures this.rules == rules
    {
      this.rules := rules;
    }

    /** `Match`: the decoder of the first rule that accepts, "" if none does. */
    method Match(url: string, meth: string, host: string) returns (name: string)
      ensures Matched(rules, url, meth, host, name)
    {
      var path := ExtractPath(url);
      var i := 0;
      while i < |rules|
        invariant 0 <= i <= |rules|
        invariant forall k :: 0 <= k < i ==> !Accepts(rules[k], url, meth, host)
      {
        var r := rules[i];
        if r.meth == "*" || r.meth == meth {
          var h := MatchGlob(r.hostPattern, host);
          var p := MatchGlob(r.pathPattern, path);
          if h && p {
            assert FirstAccepting(rules, url, meth, host, i);
            return r.decoder;
          }
        }
        i := i + 1;
      }
      name := "";
    }

    /** `AllURLPatterns`: the LIKE pattern of every rule, each once. */
    method AllURLPatterns() returns (patterns: seq<string>)
      ensures PatternsOf(rules, patterns)
      ensures forall i, j :: 0 <= i < j < |patterns| ==> patterns[i] != patterns[j]
    {
      patterns := [];
      var seen: set<string> := {};
      var i := 0;
      while i < |rules|
        invariant 0 <= i <= |rules|
        invariant seen == set p | p in patterns
        invariant forall k :: 0 <= k < i ==> LikePattern(rules[k]) in patterns
        invariant forall p <- patterns :: exists k :: 0 <= k < i && LikePattern(rules[k]) == p
        invariant forall k, j :: 0 <= k < j < |patterns| ==> patterns[k] != patterns[j]
      {
        var pattern := LikePattern(rules[i]);
        if pattern !in seen {
          patterns := patterns + [pattern];
          seen := seen + {pattern};
        }
        i := i + 1;
      }
    }
  }

  // ----- The pre-filter never misses -----

  /** A text matched by a glob is matched by its LIKE translation, whose own wildcards only widen it. */
  lemma {:induction false} GlobImpliesLike(p: string, s: string)
    requires Means(p, s)
    ensures Like(ReplaceAll(p, '*', "%"), s)
    decreases |p|
  {
    if p != "" {
      var q := ReplaceAll(p[1..], '*', "%");
      var t := ReplaceAll(p, '*', "%");
      assert t[1..] == q;
      if p[0] == '*' {
        var k :| 0 <= k <= |s| && Means(p[1..], s[k..]);
        GlobImpliesLike(p[1..], s[k..]);
      } else {
        GlobImpliesLike(p[1..], s[1..]);
        if p[0] == '%' { assert s[1..] == s[1..|s|]; assert Like(t[1..], s[1..]); }
      }
    }
  }

  predicate Without(s: string, c: char) { forall i :: 0 <= i < |s| ==> s[i] != c }

  /** A URL as a scheme, an authority, a path that starts with a slash, and an optional query. */
  function Url(scheme: string, authority: string, path: string, query: string): string {
    scheme + "://" + authority + path + query
  }

  predicate UrlParts(scheme: string, authority: string, path: string, query: string) {
    Without(scheme, ':') && Without(authority, '/') && Without(path, '?') && path != "" && path[0] == '/' &&
    (query == "" || query[0] == '?')
  }

  /** The first occurrence of a string is right behind any text without its first character. */
  lemma FoundBehind(a: string, sub: string, b: string)
    requires sub != "" && Without(a, sub[0])
    ensures Find(a + sub + b, sub) == |a|
  {
    var s := a + sub + b;
    assert Occurs(s, sub, |a|);
    forall k | 0 <= k < |a| ensures !Occurs(s, sub, k) {
      assert s[k] == a[k] && s[k..k + |sub|][0] == s[k];
    }
  }

  lemma NotFound(a: string, sub: string)
    requires sub != "" && Without(a, sub[0])
    ensures Find(a, sub) == -1
  {
    forall k | 0 <= k <= |a| - |sub| ensures !Occurs(a, sub, k) {
      assert a[k..k + |sub|][0] == a[k];
    }
  }

  /** What remains once scheme and separator are cut. */
  lemma SchemeStripped(scheme: string, rest: string)
    requires Without(scheme, ':')
    ensures AfterScheme(scheme + "://" + rest) == rest
  {
    FoundBehind(scheme, "://", rest);
    assert (scheme + "://" + rest)[|scheme| + 3..] == rest;
  }

  lemma AuthorityStripped(authority: string, path: string, query: string)
    requires Without(authority, '/') && path != "" && path[0] == '/'
    ensures PathIn(authority + path + query) == BeforeQuery(path + query)
  {
    var more := path[1..] + query;
    assert path == "/" + path[1..];
    assert authority + path + query == authority + "/" + more;
    FoundBehind(authority, "/", more);
    assert (authority + path + query)[|authority|..] == path + query;
  }

  lemma QueryStripped(path: string, query: string)
    requires Without(path, '?') && (query == "" || query[0] == '?')
    ensures BeforeQuery(path + query) == path
  {
    if query == "" {
      assert path + query == path;
      NotFound(path, "?");
    } else {
      assert query == "?" + query[1..];
      assert path + query == path + "?" + query[1..];
      FoundBehind(path, "?", query[1..]);
    }
  }

  /** `extractPath` finds the path of any such URL. */
  lemma PathExtracted(scheme: string, authority: string, path: string, query: string)
    requires UrlParts(scheme, authority, path, query)
    ensures ExtractPath(Url(scheme, authority, path, query)) == path
  {
    UrlIs(scheme, authority, path, query);
    SchemeStripped(scheme, authority + path + query);
    AuthorityStripped(authority, path, query);
    QueryStripped(path, query);
  }

  lemma UrlIs(scheme: string, authority: string, path: string, query: string)
    ensures Url(scheme, authority, path, query) == scheme + "://" + (authority + path + query)
  {
  }

  /** Text that splits into host and path pieces in order is matched by the rule's LIKE pattern. */
  lemma LikePatternCovers(r: Rule, a: string, host: string, b: string, path: string, c: string)
    requires Means(r.hostPattern, host) && Means(r.pathPattern, path)
    ensures Like(LikePattern(r), a + host + b + path + c)
  {
    var h, p := ReplaceAll(r.hostPattern, '*', "%"), ReplaceAll(r.pathPattern, '*', "%");
    GlobImpliesLike(r.hostPattern, host);
    GlobImpliesLike(r.pathPattern, path);
    LikeAnything(a);
    LikeAnything(b);
    LikeAnything(c);
    LikeConcat("%", a, h, host);
    LikeConcat("%" + h, a + host, "%", b);
    LikeConcat("%" + h + "%", a + host + b, p, path);
    LikeConcat("%" + h + "%" + p, a + host + b + path, "%", c);
  }

  lemma Regroup(a: string, b: string, c: string, d: string, e: string, f: string)
    ensures a + (b + c + d) + e + f == (a + b) + c + d + e + f
  {
    assert a + (b + c + d) == (a + b) + c + d;
  }

  /**
    The pre-filter never misses: whatever rule accepts a URL whose authority
    contains the host, that rule's LIKE pattern matches the URL.
   */
  lemma PrefilterNeverMisses(r: Rule, meth: string, host: string, scheme: string, before: string, after: string,
                             path: string, query: string)
    requires UrlParts(scheme, before + host + after, path, query)
    requires Accepts(r, Url(scheme, before + host + after, path, query), meth, host)
    ensures Like(LikePattern(r), Url(scheme, before + host + after, path, query))
  {
    PathExtracted(scheme, before + host + after, path, query);
    LikePatternCovers(r, scheme + "://" + before, host, after, path, query);
    Regroup(scheme + "://", before, host, after, path, query);
  }

  /** End to end: a URL that the registry has a decoder for is LIKE-matched by one of the registry's patterns. */
  lemma DecodedIsPrefiltered(rules: seq<Rule>, patterns: seq<string>, name: string, meth: string, host: string,
                             scheme: string, before: string, after: string, path: string, query: string)
    requires UrlParts(scheme, before + host + after, path, query) && PatternsOf(rules, patterns)
    requires Matched(rules, Url(scheme, before + host + after, path, query), meth, host, name) && name != ""
    ensures exists p <- patterns :: Like(p, Url(scheme, before + host + after, path, query))
  {
    var url := Url(scheme, before + host + after, path, query);
    var i: nat :| FirstAccepting(rules, url, meth, host, i) && name == rules[i].decoder;
    PrefilterNeverMisses(rules[i], meth, host, scheme, before, after, path, query);
    assert LikePattern(rules[i]) in patterns;
  }

  // ----- Where it does miss -----

  lemma {:induction false} LiteralMeansItself(p: string)
    requires Without(p, '*')
    ensures Means(p, p)
    decreases |p|
  {
    if p != "" { LiteralMeansItself(p[1..]); }
  }

  /** A character that stands for itself in a LIKE pattern. */
  predicate Literal(c: char) { c != '%' && c != '_' }

  /** Every literal character of a pattern needs its like in the text. */
  lemma {:induction false} LikeNeedsChar(p: string, s: string, c: char) returns (k: nat)
    requires Like(p, s) && c in p && Literal(c)
    ensures k < |s| && SameChar(c, s[k])
    decreases |p|
  {
    if p[0] == c {
      k := 0;
    } else {
      assert p == [p[0]] + p[1..] && c in p[1..];
      if p[0] == '%' {
        var cut :| 0 <= cut <= |s| && Like(p[1..], s[cut..]);
        var i := LikeNeedsChar(p[1..], s[cut..], c);
        k := cut + i;
      } else {
        var i := LikeNeedsChar(p[1..], s[1..], c);
        k := 1 + i;
      }
    }
  }

  /** A percent sign skips some of the text. */
  lemma LikeSkips(p: string, s: string) returns (cut: nat)
    requires p != "" && p[0] == '%' && Like(p, s)
    ensures cut <= |s| && Like(p[1..], s[cut..])
  {
    cut :| 0 <= cut <= |s| && Like(p[1..], s[cut..]);
  }

  lemma LikeMaySkip(p: string, s: string, cut: nat)
    requires p != "" && p[0] == '%' && cut <= |s| && Like(p[1..], s[cut..])
    ensures Like(p, s)
  {
  }

  lemma TailOfSum(p: string, q: string)
    requires p != ""
    ensures (p + q)[0] == p[0] && (p + q)[1..] == p[1..] + q
  {
  }

  lemma CutTwice(s: string, cut: nat, i: nat)
    requires cut <= |s| && i <= |s| - cut
    ensures s[..cut + i][cut..] == s[cut..][..i] && s[cut + i..] == s[cut..][i..]
  {
  }

  /** A text matched by two patterns in a row splits between them. */
  lemma {:induction false} LikeCut(p: string, q: string, s: string) returns (k: nat)
    requires Like(p + q, s)
    ensures k <= |s| && Like(p, s[..k]) && Like(q, s[k..])
    decreases |p|
  {
    if p == "" {
      k := 0;
      assert p + q == q && s[0..] == s;
    } else {
      TailOfSum(p, q);
      var cut := 1;
      if p[0] == '%' { cut := LikeSkips(p + q, s); }
      var i := LikeCut(p[1..], q, s[cut..]);
      k := cut + i;
      CutTwice(s, cut, i);
      if p[0] == '%' { LikeMaySkip(p, s[..k], cut); }
    }
  }

  /** A pattern that ends in a percent sign matches every longer text too. */
  lemma LikeLonger(p: string, s: string, t: string)
    requires Like(p + "%", s)
    ensures Like(p + "%", s + t)
  {
    var k := LikeCut(p, "%", s);
    LikeAnything(s[k..] + t);
    LikeConcat(p, s[..k], "%", s[k..] + t);
    assert s[..k] + (s[k..] + t) == s + t;
  }

  lemma {:induction false} ReplaceKeeps(p: string, c: char)
    requires c != '*' && Literal(c)
    ensures c in ReplaceAll(p, '*', "%") <==> c in p
    decreases |p|
  {
    if p != "" {
      ReplaceKeeps(p[1..], c);
      assert p == [p[0]] + p[1..];
    }
  }

  lemma {:induction false} MeansNoMore(p: string, s: string)
    requires Means(p, s) && (forall c <- p :: c !in s)
    ensures Means(p, "")
    decreases |p|
  {
    if p != "" {
      assert p[0] in p && (s != "" ==> s[0] in s);
      if p[0] == '*' {
        var k :| 0 <= k <= |s| && Means(p[1..], s[k..]);
        assert p == [p[0]] + p[1..] && s == s[..k] + s[k..];
        forall c <- p[1..] ensures c !in s[k..] { assert c in p; }
        MeansNoMore(p[1..], s[k..]);
        assert ""[0..] == "";
      }
    }
  }

  /** Characters of a glob that are no stars occur in what it matches. */
  lemma {:induction false} MeansNeedsChar(p: string, s: string, c: char)
    requires Means(p, s) && c in p && c != '*'
    ensures c in s
    decreases |p|
  {
    if p[0] != c {
      assert p == [p[0]] + p[1..] && c in p[1..];
      if p[0] == '*' {
        var k :| 0 <= k <= |s| && Means(p[1..], s[k..]);
        MeansNeedsChar(p[1..], s[k..], c);
      } else {
        MeansNeedsChar(p[1..], s[1..], c);
      }
    }
  }

  /** A glob without a slash that matches the path "/" is made of stars, and matches nothing at all as well. */
  lemma SlashlessMatchesEmpty(p: string)
    requires Means(p, "/") && '/' !in p
    ensures Means(p, "")
  {
    forall c <- p ensures c !in "/" {
      if c != '*' { MeansNeedsChar(p, "/", c); }
    }
    MeansNoMore(p, "/");
  }

  function HostLike(r: Rule): string { "%" + ReplaceAll(r.hostPattern, '*', "%") + "%" }

  lemma LikePatternParts(r: Rule)
    ensures LikePattern(r) == HostLike(r) + (ReplaceAll(r.pathPattern, '*', "%") + "%")
  {
  }

  /** When the last slash of a URL belongs to the scheme separator, a path pattern with a slash must match from there. */
  lemma SlashMustBeInFront(r: Rule, scheme: string, rest: string)
    requires '/' in r.pathPattern && Without(rest, '/') && Like(LikePattern(r), scheme + "://" + rest)
    ensures Like(HostLike(r), scheme + ":/")
  {
    var front, url := scheme + ":/", scheme + "://" + rest;
    var p := ReplaceAll(r.pathPattern, '*', "%") + "%";
    LikePatternParts(r);
    var k := LikeCut(HostLike(r), p, url);
    ReplaceKeeps(r.pathPattern, '/');
    var j := LikeNeedsChar(p, url[k..], '/');
    LastSlash(scheme, rest, k + j);
    FrontSplit(scheme, rest, k);
    LikeLonger("%" + ReplaceAll(r.hostPattern, '*', "%"), url[..k], front[k..]);
  }

  lemma FrontSplit(scheme: string, rest: string, k: nat)
    requires k <= |scheme + ":/"|
    ensures (scheme + "://" + rest)[..k] + (scheme + ":/")[k..] == scheme + ":/"
  {
  }

  /** No slash stands behind the separator. */
  lemma LastSlash(scheme: string, rest: string, i: nat)
    requires Without(rest, '/') && i < |scheme + "://" + rest| && (scheme + "://" + rest)[i] == '/'
    ensures i <= |scheme + ":/"|
  {
    var url := scheme + "://" + rest;
    assert forall j :: 0 <= j < |rest| ==> url[|scheme| + 3 + j] == rest[j];
    assert forall j :: |scheme| + 3 <= j < |url| ==> url[j] == rest[j - |scheme| - 3];
  }

  lemma SlashMoved(scheme: string, rest: string)
    ensures scheme + ":/" + ("/" + rest) == scheme + "://" + rest
  {
  }

  lemma FrontSlashSuffices(r: Rule, scheme: string, rest: string)
    requires Means(r.pathPattern, "/") && Like(HostLike(r), scheme + ":/")
    ensures Like(LikePattern(r), scheme + "://" + rest)
  {
    var p := ReplaceAll(r.pathPattern, '*', "%");
    GlobImpliesLike(r.pathPattern, "/");
    LikeAnything(rest);
    LikeConcat(p, "/", "%", rest);
    LikeConcat(HostLike(r), scheme + ":/", p + "%", "/" + rest);
    LikePatternParts(r);
    SlashMoved(scheme, rest);
  }

  /**
    A URL with no slash behind the scheme separator, for which `extractPath`
    still answers "/": a rule that accepts it is found by its LIKE pattern if and
    only if its path pattern has no slash, or its host pattern already matches in
    the scheme.
   */
  lemma PrefilterWithoutSlash(r: Rule, meth: string, host: string, scheme: string, before: string, after: string)
    requires Without(scheme, ':') && Without(before + host + after, '/')
    requires Accepts(r, scheme + "://" + (before + host + after), meth, host)
    ensures Like(LikePattern(r), scheme + "://" + (before + host + after)) <==>
      '/' !in r.pathPattern || Like(HostLike(r), scheme + ":/")
  {
    var rest := before + host + after;
    SlashlessPath(scheme, rest);
    if '/' !in r.pathPattern {
      SlashlessMatchesEmpty(r.pathPattern);
      LikePatternCovers(r, scheme + "://" + before, host, after, "", "");
      assert scheme + "://" + before + host + after + "" + "" == scheme + "://" + rest;
    } else if Like(HostLike(r), scheme + ":/") {
      FrontSlashSuffices(r, scheme, rest);
    } else if Like(LikePattern(r), scheme + "://" + rest) {
      SlashMustBeInFront(r, scheme, rest);
    }
  }

  lemma SlashlessPath(scheme: string, rest: string)
    requires Without(scheme, ':') && Without(rest, '/')
    ensures ExtractPath(scheme + "://" + rest) == "/"
  {
    SchemeStripped(scheme, rest);
    NotFound(rest, "/");
  }

  /**
    A host pattern with a literal character the scheme does not have cannot match
    there: then the miss is exactly the slash.
   */
  lemma PrefilterMissesBareAuthority(r: Rule, meth: string, host: string, scheme: string, before: string, after: string,
                                     c: char)
    requires Without(scheme, ':') && Without(before + host + after, '/')
    requires Accepts(r, scheme + "://" + (before + host + after), meth, host)
    requires c in r.hostPattern && c != '*' && Literal(c)
    requires forall i :: 0 <= i < |scheme + ":/"| ==> !SameChar(c, (scheme + ":/")[i])
    ensures Like(LikePattern(r), scheme + "://" + (before + host + after)) <==> '/' !in r.pathPattern
  {
    PrefilterWithoutSlash(r, meth, host, scheme, before, after);
    ReplaceKeeps(r.hostPattern, c);
    if Like(HostLike(r), scheme + ":/") {
      var k := LikeNeedsChar(HostLike(r), scheme + ":/", c);
    }
  }

  /** Such a miss: the rule for "/" of a plain host accepts that host's bare URL, and its pattern does not match it. */
  lemma BareAuthorityMissed(scheme: string, host: string, decoder: string, c: char)
    requires Without(scheme, ':') && Without(host, '/') && Without(host, '*') && c in host && Literal(c)
    requires forall i :: 0 <= i < |scheme + ":/"| ==> !SameChar(c, (scheme + ":/")[i])
    ensures var r := Rule(host, "/", "*", decoder);
      Accepts(r, scheme + "://" + host, "POST", host) && !Like(LikePattern(r), scheme + "://" + host)
  {
    var r := Rule(host, "/", "*", decoder);
    LiteralMeansItself(host);
    LiteralMeansItself("/");
    SlashlessPath(scheme, host);
    assert "" + host + "" == host && "/"[0] in "/";
    PrefilterMissesBareAuthority(r, "POST", host, scheme, "", "", c);
  }
}
