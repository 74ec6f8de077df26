/** Transaction entries, their orders, and bags of entries filed under keys. */
module Transactions {
  import opened Common
  import opened Sorting

  /** What a dissector extracted, reduced to what grouping reads: `toolResults` in scan order. */
  datatype Extraction = Extraction(provider: string, systemLength: nat, systemText: string, toolResults: seq<string>)

  datatype Entry = Entry(txnID: nat, timestamp: string, sessionID: string, msgCount: int,
                         result: Option<Extraction>, headers: seq<(string, string)>)

  ghost predicate DistinctIds(s: seq<Entry>) {
    forall i, j :: 0 <= i < j < |s| ==> s[i].txnID != s[j].txnID
  }

  // ----- Orders -----

  /** Go's `<` on strings. */
  predicate StringLess(a: string, b: string) {
    |b| > 0 && (|a| == 0 || a[0] < b[0] || (a[0] == b[0] && StringLess(a[1..], b[1..])))
  }

  lemma {:induction false} StringLessTransitive(a: string, b: string, c: string)
    requires StringLess(a, b) && StringLess(b, c)
    ensures StringLess(a, c)
  {
    if |a| > 0 && a[0] == b[0] == c[0] { StringLessTransitive(a[1..], b[1..], c[1..]); }
  }

  lemma {:induction false} StringLessTotal(a: string, b: string)
    requires a != b
    ensures StringLess(a, b) || StringLess(b, a)
  {
    if |a| > 0 && |b| > 0 && a[0] == b[0] {
      assert a == [a[0]] + a[1..] && b == [b[0]] + b[1..];
      StringLessTotal(a[1..], b[1..]);
    }
  }

  predicate ByTime(a: Entry, b: Entry) { StringLess(a.timestamp, b.timestamp) }

  predicate ByTimeThenId(a: Entry, b: Entry) {
    if a.timestamp == b.timestamp then a.txnID < b.txnID else StringLess(a.timestamp, b.timestamp)
  }

  lemma {:induction false} StringLessIrreflexive(a: string)
    ensures !StringLess(a, a)
  {
    if |a| > 0 { StringLessIrreflexive(a[1..]); }
  }

  /** Strings compare at the first place they differ; a string comes after its own beginnings. */
  lemma {:induction false} StringLessAt(a: string, b: string, k: nat)
    requires k <= |a| && k <= |b| && a[..k] == b[..k] && (k < |a| && k < |b| ==> a[k] != b[k])
    ensures StringLess(a, b) <==> k < |b| && (k == |a| || a[k] < b[k])
    decreases k
  {
    if k > 0 {
      assert a[0] == a[..k][0] && b[0] == b[..k][0];
      assert a[1..][..k - 1] == a[..k][1..] && b[1..][..k - 1] == b[..k][1..];
      StringLessAt(a[1..], b[1..], k - 1);
    }
  }

  /** The two orders entries are sorted in: by timestamp alone, and by transaction id among equal timestamps. */
  lemma TimeOrders(a: Entry, b: Entry, k: nat)
    requires k <= |a.timestamp| && k <= |b.timestamp| && a.timestamp[..k] == b.timestamp[..k]
    requires k < |a.timestamp| && k < |b.timestamp| ==> a.timestamp[k] != b.timestamp[k]
    ensures ByTime(a, b) <==> k < |b.timestamp| && (k == |a.timestamp| || a.timestamp[k] < b.timestamp[k])
    ensures a.timestamp != b.timestamp ==> (ByTimeThenId(a, b) <==> ByTime(a, b))
    ensures a.timestamp == b.timestamp ==> (ByTimeThenId(a, b) <==> a.txnID < b.txnID)
  {
    StringLessAt(a.timestamp, b.timestamp, k);
  }

  lemma ByTimeIsOrder()
    ensures StrictOrder(ByTime)
  {
    forall a ensures !ByTime(a, a) { StringLessIrreflexive(a.timestamp); }
    forall a, b, c | ByTime(a, b) && ByTime(b, c) ensures ByTime(a, c) {
      StringLessTransitive(a.timestamp, b.timestamp, c.timestamp);
    }
  }

  lemma ByTimeThenIdIsOrder()
    ensures StrictOrder(ByTimeThenId)
  {
    forall a, b, c | ByTimeThenId(a, b) && ByTimeThenId(b, c) ensures ByTimeThenId(a, c) {
      if a.timestamp != b.timestamp && b.timestamp != c.timestamp {
        StringLessTransitive(a.timestamp, b.timestamp, c.timestamp);
        StringLessIrreflexive(a.timestamp);
      }
    }
  }

  // ----- Lists of lists -----

  function Concat(groups: seq<seq<Entry>>): seq<Entry> {
    if |groups| == 0 then [] else Concat(groups[..|groups| - 1]) + groups[|groups| - 1]
  }

  lemma ConcatSnoc(groups: seq<seq<Entry>>, g: seq<Entry>)
    ensures Concat(groups + [g]) == Concat(groups) + g
  {
    assert (groups + [g])[..|groups|] == groups;
  }

  /** The entries with key `k`, in order. */
  function Where(key: Entry -> string, k: string, s: seq<Entry>): seq<Entry> {
    if |s| == 0 then []
    else
      var rest := Where(key, k, s[..|s| - 1]);
      if key(s[|s| - 1]) == k then rest + [s[|s| - 1]] else rest
  }

  // ----- Entries filed under keys -----

  type Filed = map<string, seq<Entry>>

  function At(m: Filed, k: string): seq<Entry> { if k in m then m[k] else [] }

  ghost predicate NoneEmpty(m: Filed) { forall k <- m :: m[k] != [] }

  /** The bag of all entries filed under any key. */
  ghost function Total(m: Filed): multiset<Entry>
    decreases |m|
  {
    if m == map[] then multiset{}
    else
      var k :| k in m;
      multiset(m[k]) + Total(m - {k})
  }

  /** Any key may be taken out first. */
  lemma {:induction false} TotalTake(m: Filed, k: string)
    requires k in m
    ensures Total(m) == multiset(m[k]) + Total(m - {k})
    decreases |m|
  {
    var c :| c in m && Total(m) == multiset(m[c]) + Total(m - {c});
    if c != k {
      TotalTake(m - {c}, k);
      TotalTake(m - {k}, c);
      assert m - {c} - {k} == m - {k} - {c};
    }
  }

  lemma TotalPut(m: Filed, k: string, v: seq<Entry>)
    ensures Total(m[k := v]) + multiset(At(m, k)) == Total(m) + multiset(v)
  {
    TotalTake(m[k := v], k);
    if k in m {
      TotalTake(m, k);
      assert m[k := v] - {k} == m - {k};
    } else {
      assert m[k := v] - {k} == m;
    }
  }

  lemma TotalPutFresh(m: Filed, k: string, v: seq<Entry>)
    requires k !in m
    ensures Total(m[k := v]) == Total(m) + multiset(v)
  {
    TotalPut(m, k, v);
    assert Total(m[k := v]) + multiset{} == Total(m[k := v]);
  }

  /** `m[k] = append(m[k], e)`. */
  function Append(m: Filed, k: string, e: Entry): Filed { m[k := At(m, k) + [e]] }

  lemma Cancel(x: multiset<Entry>, y: multiset<Entry>, a: multiset<Entry>)
    requires x + a == y + a
    ensures x == y
  {
    forall e ensures x[e] == y[e] { assert (x + a)[e] == (y + a)[e]; }
  }

  lemma TotalAppend(m: Filed, k: string, e: Entry)
    ensures Total(Append(m, k, e)) == Total(m) + multiset{e}
  {
    TotalPut(m, k, At(m, k) + [e]);
    var was := multiset(At(m, k));
    assert multiset(At(m, k) + [e]) == was + multiset{e};
    Cancel(Total(Append(m, k, e)), Total(m) + multiset{e}, was);
  }

  /** Appending each entry in order under its key. */
  function Gather(m: Filed, s: seq<Entry>, key: Entry -> string): Filed {
    if |s| == 0 then m else Append(Gather(m, s[..|s| - 1], key), key(s[|s| - 1]), s[|s| - 1])
  }

  lemma {:induction false} GatherTotal(m: Filed, s: seq<Entry>, key: Entry -> string)
    ensures Total(Gather(m, s, key)) == Total(m) + multiset(s)
    decreases |s|
  {
    if |s| > 0 {
      var n := |s| - 1;
      var before := s[..n];
      GatherTotal(m, before, key);
      TotalAppend(Gather(m, before, key), key(s[n]), s[n]);
      BagSnoc(before, s[n], s);
      assert Total(Gather(m, s, key)) == Total(m) + multiset(before) + multiset{s[n]};
    }
  }

  lemma BagSnoc(before: seq<Entry>, e: Entry, s: seq<Entry>)
    requires |s| == |before| + 1 && before == s[..|s| - 1] && e == s[|s| - 1]
    ensures multiset(s) == multiset(before) + multiset{e}
  {
    assert s == before + [e];
  }

  /** Under each key are the entries with that key, in order, after what was there before. */
  lemma {:induction false} GatherAt(m: Filed, s: seq<Entry>, key: Entry -> string, k: string)
    ensures At(Gather(m, s, key), k) == At(m, k) + Where(key, k, s)
    decreases |s|
  {
    if |s| > 0 { GatherAt(m, s[..|s| - 1], key, k); }
  }

  lemma {:induction false} GatherKeys(m: Filed, s: seq<Entry>, key: Entry -> string, k: string)
    ensures k in Gather(m, s, key) <==> k in m || exists e <- s :: key(e) == k
    decreases |s|
  {
    if |s| > 0 {
      GatherKeys(m, s[..|s| - 1], key, k);
      assert s == s[..|s| - 1] + [s[|s| - 1]];
    }
  }

  lemma {:induction false} GatherNoneEmpty(m: Filed, s: seq<Entry>, key: Entry -> string)
    requires NoneEmpty(m)
    ensures NoneEmpty(Gather(m, s, key))
    decreases |s|
  {
    if |s| > 0 { GatherNoneEmpty(m, s[..|s| - 1], key); }
  }

  // ----- Putting lists under keys -----

  datatype Put = Put(key: string, list: seq<Entry>)

  /** `m[key] = list`, one after the other. */
  function PutAll(m: Filed, puts: seq<Put>): Filed {
    var n := |puts| - 1;
    if n < 0 then m else PutAll(m, puts[..n])[puts[n].key := puts[n].list]
  }

  ghost function Bag(puts: seq<Put>): multiset<Entry> {
    var n := |puts| - 1;
    if n < 0 then multiset{} else Bag(puts[..n]) + multiset(puts[n].list)
  }

  ghost predicate DistinctKeys(puts: seq<Put>) { forall i, j :: 0 <= i < j < |puts| ==> puts[i].key != puts[j].key }

  ghost predicate Keyed(puts: seq<Put>, key: string) { exists p <- puts :: p.key == key }

  predicate FiledAt(m: Filed, key: string, s: seq<Entry>) { key in m && m[key] == s }

  /** The two maps say the same of the key. */
  predicate SameAt(m: Filed, n: Filed, key: string) { (key in m <==> key in n) && (key in m ==> m[key] == n[key]) }

  lemma {:induction false} PutElsewhere(m: Filed, puts: seq<Put>, key: string)
    requires !Keyed(puts, key)
    ensures SameAt(m, PutAll(m, puts), key)
    decreases |puts|
  {
    var n := |puts| - 1;
    if n >= 0 {
      assert puts[n] in puts && forall p <- puts[..n] :: p in puts;
      PutElsewhere(m, puts[..n], key);
    }
  }

  lemma {:induction false} PutThere(m: Filed, puts: seq<Put>, i: nat)
    requires DistinctKeys(puts) && i < |puts|
    ensures FiledAt(PutAll(m, puts), puts[i].key, puts[i].list)
    decreases |puts|
  {
    var n := |puts| - 1;
    if i < n {
      PutThere(m, puts[..n], i);
      assert puts[..n][i] == puts[i];
    }
  }

  lemma {:induction false} PutAppend(m: Filed, a: seq<Put>, b: seq<Put>)
    ensures PutAll(m, a + b) == PutAll(PutAll(m, a), b) && Bag(a + b) == Bag(a) + Bag(b)
    decreases |b|
  {
    var n := |b| - 1;
    if n < 0 {
      assert a + b == a;
    } else {
      assert (a + b)[..|a + b| - 1] == a + b[..n];
      PutAppend(m, a, b[..n]);
    }
  }

  /** Lists put under keys are what there is more, at most: a key in use gives up its list. */
  lemma {:induction false} PutBound(m: Filed, puts: seq<Put>)
    ensures Total(PutAll(m, puts)) <= Total(m) + Bag(puts)
    decreases |puts|
  {
    var n := |puts| - 1;
    if n >= 0 {
      PutBound(m, puts[..n]);
      var before, after, list := PutAll(m, puts[..n]), PutAll(m, puts), multiset(puts[n].list);
      TotalPut(before, puts[n].key, puts[n].list);
      forall e ensures Total(after)[e] <= (Total(m) + Bag(puts))[e] {
        assert (Total(after) + multiset(At(before, puts[n].key)))[e] == (Total(before) + list)[e];
        assert Total(before)[e] <= (Total(m) + Bag(puts[..n]))[e];
      }
    }
  }

  /** Under fresh, distinct keys nothing gives way. */
  lemma {:induction false} PutFresh(m: Filed, puts: seq<Put>)
    requires DistinctKeys(puts) && forall p <- puts :: At(m, p.key) == []
    ensures Total(PutAll(m, puts)) == Total(m) + Bag(puts)
    decreases |puts|
  {
    var n := |puts| - 1;
    if n >= 0 {
      LastKeyNew(puts);
      PutFresh(m, puts[..n]);
      PutElsewhere(m, puts[..n], puts[n].key);
      var before := PutAll(m, puts[..n]);
      assert At(before, puts[n].key) == [];
      TotalPut(before, puts[n].key, puts[n].list);
      assert Total(PutAll(m, puts)) + multiset{} == Total(PutAll(m, puts));
    }
  }

  /** A list under one of the keys gives way. */
  lemma {:induction false} PutReplaces(m: Filed, k: string, puts: seq<Put>)
    requires Keyed(puts, k) && k in m
    ensures Total(PutAll(m, puts)) + multiset(m[k]) <= Total(m) + Bag(puts)
    decreases |puts|
  {
    var n := |puts| - 1;
    var before, after, list := PutAll(m, puts[..n]), PutAll(m, puts), multiset(puts[n].list);
    TotalPut(before, puts[n].key, puts[n].list);
    if Keyed(puts[..n], k) {
      PutReplaces(m, k, puts[..n]);
      OneMoreList(Total(after), multiset(m[k]), Total(before), list, Total(m) + Bag(puts[..n]));
      assert Total(m) + Bag(puts[..n]) + list == Total(m) + Bag(puts);
    } else {
      assert puts == puts[..n] + [puts[n]];
      PutElsewhere(m, puts[..n], k);
      PutBound(m, puts[..n]);
      assert Total(before) + list <= Total(m) + Bag(puts[..n]) + list;
      assert Total(m) + Bag(puts[..n]) + list == Total(m) + Bag(puts);
    }
  }

  /** Nothing gives way exactly when nothing was under the keys. */
  lemma PutKeepsAll(m: Filed, puts: seq<Put>)
    requires DistinctKeys(puts)
    ensures Total(PutAll(m, puts)) == Total(m) + Bag(puts) <==> forall p <- puts :: At(m, p.key) == []
  {
    if forall p <- puts :: At(m, p.key) == [] {
      PutFresh(m, puts);
    } else {
      var p :| p in puts && At(m, p.key) != [];
      PutReplaces(m, p.key, puts);
      assert (Total(PutAll(m, puts)) + multiset(m[p.key]))[m[p.key][0]] <= (Total(m) + Bag(puts))[m[p.key][0]];
      assert m[p.key][0] in multiset(m[p.key]);
    }
  }

  lemma OneMoreList(after: multiset<Entry>, given: multiset<Entry>, before: multiset<Entry>, list: multiset<Entry>,
                    cap: multiset<Entry>)
    requires before + given <= cap && after <= before + list
    ensures after + given <= cap + list
  {
    forall e ensures (after + given)[e] <= (cap + list)[e] {
      assert (before + given)[e] <= cap[e] && after[e] <= (before + list)[e];
    }
  }

  lemma LastKeyNew(puts: seq<Put>)
    requires DistinctKeys(puts) && |puts| > 0
    ensures var n := |puts| - 1; !Keyed(puts[..n], puts[n].key) && puts[n] in puts && forall p <- puts[..n] :: p in puts
  {
    var n := |puts| - 1;
    forall p <- puts[..n] ensures p.key != puts[n].key && p in puts {
      var i :| 0 <= i < n && puts[..n][i] == p;
      assert puts[i] == p && puts[i].key != puts[n].key;
    }
  }

  lemma {:induction false} PutNonEmpty(m: Filed, puts: seq<Put>)
    requires NoneEmpty(m) && forall p <- puts :: p.list != []
    ensures NoneEmpty(PutAll(m, puts)) && forall p <- puts :: p.key in PutAll(m, puts)
    decreases |puts|
  {
    var n := |puts| - 1;
    if n >= 0 {
      assert puts == puts[..n] + [puts[n]];
      PutNonEmpty(m, puts[..n]);
    }
  }

  /** Of lists put under keys one after the other, all are still there exactly when no key was used twice. */
  lemma AllPutsStay(puts: seq<Put>)
    requires forall p <- puts :: p.list != []
    ensures Total(PutAll(map[], puts)) == Bag(puts) <==> DistinctKeys(puts)
  {
    if DistinctKeys(puts) {
      PutFresh(map[], puts);
      assert Total(map[]) + Bag(puts) == Bag(puts);
    } else {
      var i, j :| 0 <= i < j < |puts| && puts[i].key == puts[j].key;
      KeyUsedTwice(puts, i, j);
    }
  }

  lemma KeyUsedTwice(puts: seq<Put>, i: nat, j: nat)
    requires i < j < |puts| && puts[i].key == puts[j].key && forall p <- puts :: p.list != []
    ensures Total(PutAll(map[], puts)) != Bag(puts)
  {
    var a, b, key := puts[..j], puts[j..], puts[j].key;
    var m := PutAll(map[], a);
    assert puts == a + b && a[i] in a && b[0] in b && forall p <- a :: p in puts;
    PutAppend(map[], a, b);
    PutNonEmpty(map[], a);
    PutBound(map[], a);
    PutReplaces(m, key, b);
    var e := m[key][0];
    assert e in multiset(m[key]);
    assert (Total(PutAll(map[], puts)) + multiset(m[key]))[e] <= (Total(m) + Bag(b))[e];
    assert Total(m)[e] <= (Total(map[]) + Bag(a))[e];
  }

  // ----- Distinct ids -----

  /** No two entries of the bag share an id, not even two copies of one. */
  ghost predicate UniqueIds(b: multiset<Entry>) {
    forall x, y | x in b && y in b && x.txnID == y.txnID :: x == y && b[x] == 1
  }

  lemma {:induction false} DistinctIsUnique(s: seq<Entry>)
    requires DistinctIds(s)
    ensures UniqueIds(multiset(s))
    decreases |s|
  {
    if |s| > 0 {
      var n := |s| - 1;
      DistinctIsUnique(s[..n]);
      assert s == s[..n] + [s[n]];
      forall x | x in multiset(s[..n]) ensures x.txnID != s[n].txnID {
        var i :| 0 <= i < n && s[..n][i] == x;
        assert s[i].txnID != s[n].txnID;
      }
    }
  }

  lemma UniqueIsDistinct(s: seq<Entry>)
    requires UniqueIds(multiset(s))
    ensures DistinctIds(s)
  {
    forall i, j | 0 <= i < j < |s| ensures s[i].txnID != s[j].txnID {
      assert s == s[..j] + s[j..] && s[i] == s[..j][i] && s[j] == s[j..][0];
      UniqueApart(multiset(s[..j]), multiset(s[j..]), s[i], s[j]);
    }
  }

  lemma UniqueApart(a: multiset<Entry>, b: multiset<Entry>, x: Entry, y: Entry)
    requires UniqueIds(a + b) && x in a && y in b
    ensures x.txnID != y.txnID
  {
    assert x in a + b && y in a + b && (a + b)[x] == a[x] + b[x];
  }

  lemma UniquePart(a: multiset<Entry>, b: multiset<Entry>)
    requires UniqueIds(b) && a <= b
    ensures UniqueIds(a)
  {
    forall x, y | x in a && y in a && x.txnID == y.txnID ensures x == y && a[x] == 1 {
      assert x in b && y in b;
    }
  }
}
