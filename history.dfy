/**
 * The history reconciler and the write fan-out over the two durable stores
 * (DynamoDB and Postgres).  Store calls are abstract: a write either succeeds
 * or fails, a read either yields records or fails.
 */
module History {
  import opened Wrappers
  import opened JsStrings
  import opened Protocol

  /** The page size when the caller gives none. */
  const DEFAULT_LIMIT: int := 200

  /** One entry of `Promise.allSettled`: a fulfilled read or a rejected one. */
  datatype Settled<T> = Fulfilled(value: T) | Rejected

  /** A rejected read contributes nothing. */
  function OrEmpty(r: Settled<seq<Message>>): seq<Message> {
    if r.Fulfilled? then r.value else []
  }

  // ---------------------------------------------------------------------------
  // Deduplication on the string key `${timestamp}|${sender}|${content}`

  /** The deduplication key; a plain concatenation, so it is not injective when fields contain `|`. */
  function Key(m: Message): string {
    IntToString(m.timestamp) + "|" + m.sender + "|" + m.content
  }

  function KeySet(s: seq<Message>): set<string> {
    set i | 0 <= i < |s| :: Key(s[i])
  }

  predicate DistinctKeys(s: seq<Message>) {
    forall i, j :: 0 <= i < j < |s| ==> Key(s[i]) != Key(s[j])
  }

  /** The first record of `s` whose key is `k`, in order. */
  function FirstWithKey(s: seq<Message>, k: string): Option<Message>
    decreases |s|
  {
    if |s| == 0 then None
    else if Key(s[0]) == k then Some(s[0])
    else FirstWithKey(s[1..], k)
  }

  /** The `for … of` loop with its `seen` set: keep a record only when its key is new. */
  function Dedup(s: seq<Message>): seq<Message>
    decreases |s|
  {
    if |s| == 0 then []
    else
      var d := Dedup(s[..|s| - 1]);
      if Key(s[|s| - 1]) in KeySet(d) then d else d + [s[|s| - 1]]
  }

  lemma KeySetAppend(s: seq<Message>, m: Message)
    ensures KeySet(s + [m]) == KeySet(s) + {Key(m)}
  {
    var t := s + [m];
    forall k | k in KeySet(t) ensures k in KeySet(s) + {Key(m)} {
      var i :| 0 <= i < |t| && Key(t[i]) == k;
      if i < |s| { assert t[i] == s[i]; }
    }
    forall k | k in KeySet(s) + {Key(m)} ensures k in KeySet(t) {
      if k == Key(m) { assert t[|s|] == m; }
      else { var i :| 0 <= i < |s| && Key(s[i]) == k; assert t[i] == s[i]; }
    }
  }

  lemma KeySetCons(s: seq<Message>)
    requires |s| > 0
    ensures KeySet(s) == {Key(s[0])} + KeySet(s[1..])
  {
    forall x | x in KeySet(s) ensures x in {Key(s[0])} + KeySet(s[1..]) {
      var i :| 0 <= i < |s| && Key(s[i]) == x;
      if i > 0 { assert s[1..][i - 1] == s[i]; }
    }
    forall x | x in KeySet(s[1..]) ensures x in KeySet(s) {
      var i :| 0 <= i < |s[1..]| && Key(s[1..][i]) == x;
      assert s[i + 1] == s[1..][i];
    }
  }

  /** A record with key k is found exactly when k occurs, and what is found is a record of `s` with that key. */
  lemma {:induction false} FirstWithKeyFound(s: seq<Message>, k: string)
    ensures FirstWithKey(s, k).Some? <==> k in KeySet(s)
    ensures FirstWithKey(s, k).Some? ==> FirstWithKey(s, k).value in s && Key(FirstWithKey(s, k).value) == k
    decreases |s|
  {
    if |s| > 0 {
      FirstWithKeyFound(s[1..], k);
      KeySetCons(s);
    }
  }

  /** Looking for the first record with key k in `s + [m]`. */
  lemma {:induction false} FirstWithKeyAppend(s: seq<Message>, m: Message, k: string)
    ensures FirstWithKey(s + [m], k)
         == if k in KeySet(s) then FirstWithKey(s, k) else if Key(m) == k then Some(m) else None
    decreases |s|
  {
    if |s| > 0 {
      assert (s + [m])[0] == s[0];
      assert (s + [m])[1..] == s[1..] + [m];
      FirstWithKeyAppend(s[1..], m, k);
      KeySetCons(s);
    } else {
      assert [m][1..] == [];
    }
  }

  /** Deduplication keeps one record per key: the kept keys are distinct and every input key is represented. */
  lemma {:induction false} DedupKeys(s: seq<Message>)
    ensures DistinctKeys(Dedup(s))
    ensures KeySet(Dedup(s)) == KeySet(s)
    decreases |s|
  {
    if |s| > 0 {
      var p, m := s[..|s| - 1], s[|s| - 1];
      assert s == p + [m];
      DedupKeys(p);
      var dp := Dedup(p);
      KeySetAppend(p, m);
      if Key(m) !in KeySet(dp) {
        DistinctAppend(dp, m);
      }
    }
  }

  lemma DistinctAppend(s: seq<Message>, m: Message)
    requires DistinctKeys(s) && Key(m) !in KeySet(s)
    ensures DistinctKeys(s + [m]) && KeySet(s + [m]) == KeySet(s) + {Key(m)}
  {
    var d := s + [m];
    KeySetAppend(s, m);
    forall i, j | 0 <= i < j < |d| ensures Key(d[i]) != Key(d[j]) {
      if j == |s| { assert d[i] == s[i]; }
    }
  }

  /** Each kept record is the first record of the input that carries its key ("first occurrence wins"). */
  lemma {:induction false} DedupKeepsFirst(s: seq<Message>)
    ensures forall i :: 0 <= i < |Dedup(s)| ==> FirstWithKey(s, Key(Dedup(s)[i])) == Some(Dedup(s)[i])
    decreases |s|
  {
    if |s| > 0 {
      var p, m := s[..|s| - 1], s[|s| - 1];
      assert s == p + [m];
      DedupKeepsFirst(p);
      DedupKeys(p);
      var dp := Dedup(p);
      var d := Dedup(s);
      forall i | 0 <= i < |d| ensures FirstWithKey(s, Key(d[i])) == Some(d[i]) {
        FirstWithKeyAppend(p, m, Key(d[i]));
        if i < |dp| {
          assert d[i] == dp[i];
          assert Key(dp[i]) in KeySet(dp);
        }
      }
    }
  }

  /** Splitting the last record off a list with distinct keys: the rest keeps distinct keys and lacks that key. */
  lemma DistinctLast(p: seq<Message>, m: Message)
    requires DistinctKeys(p + [m])
    ensures DistinctKeys(p) && Key(m) !in KeySet(p)
  {
    var s := p + [m];
    assert s[|p|] == m;
    forall i | 0 <= i < |p| ensures Key(p[i]) != Key(m) { assert p[i] == s[i]; }
    forall i, j | 0 <= i < j < |p| ensures Key(p[i]) != Key(p[j]) { assert p[i] == s[i] && p[j] == s[j]; }
  }

  /** A sequence with distinct keys has as many keys as records. */
  lemma {:induction false} DistinctKeysCount(s: seq<Message>)
    requires DistinctKeys(s)
    ensures |KeySet(s)| == |s|
    decreases |s|
  {
    if |s| > 0 {
      var p, m := s[..|s| - 1], s[|s| - 1];
      assert s == p + [m];
      DistinctLast(p, m);
      DistinctKeysCount(p);
      KeySetAppend(p, m);
    }
  }

  /** The deduplicated list is as long as the number of distinct keys of the input. */
  lemma DedupLength(s: seq<Message>)
    ensures |Dedup(s)| == |KeySet(s)|
  {
    DedupKeys(s);
    DistinctKeysCount(Dedup(s));
  }

  // ---------------------------------------------------------------------------
  // Stable sort by timestamp (`Array.prototype.sort` is stable)

  predicate SortedByTimestamp(s: seq<Message>) {
    forall i, j :: 0 <= i < j < |s| ==> s[i].timestamp <= s[j].timestamp
  }

  /** The records of `s` stamped `t`, in their order in `s`. */
  function WithTimestamp(s: seq<Message>, t: int): seq<Message>
    decreases |s|
  {
    if |s| == 0 then []
    else WithTimestamp(s[..|s| - 1], t) + (if s[|s| - 1].timestamp == t then [s[|s| - 1]] else [])
  }

  /** Puts `m` after every record of `r` stamped no later than `m`. */
  function InsertByTimestamp(r: seq<Message>, m: Message): seq<Message>
    decreases |r|
  {
    if |r| == 0 || r[|r| - 1].timestamp <= m.timestamp then r + [m]
    else InsertByTimestamp(r[..|r| - 1], m) + [r[|r| - 1]]
  }

  /** `merged.sort((a, b) => a.timestamp - b.timestamp)`, as the insertion sort that defines a stable sort. */
  function SortByTimestamp(s: seq<Message>): seq<Message>
    decreases |s|
  {
    if |s| == 0 then [] else InsertByTimestamp(SortByTimestamp(s[..|s| - 1]), s[|s| - 1])
  }

  lemma {:induction false} WithTimestampConcat(a: seq<Message>, b: seq<Message>, t: int)
    ensures WithTimestamp(a + b, t) == WithTimestamp(a, t) + WithTimestamp(b, t)
    decreases |b|
  {
    if |b| == 0 {
      assert a + b == a;
    } else {
      assert (a + b)[..|a + b| - 1] == a + b[..|b| - 1];
      WithTimestampConcat(a, b[..|b| - 1], t);
    }
  }

  lemma WithTimestampSingle(m: Message, t: int)
    ensures WithTimestamp([m], t) == if m.timestamp == t then [m] else []
  {
    assert [m][..0] == [];
  }

  /** Appending a record later than `m` after `ip` keeps `m` after the records of its timestamp. */
  lemma TiesAppendLater(ip: seq<Message>, p: seq<Message>, l: Message, m: Message, t: int)
    requires m.timestamp < l.timestamp
    requires WithTimestamp(ip, t) == WithTimestamp(p, t) + WithTimestamp([m], t)
    ensures WithTimestamp(ip + [l], t) == WithTimestamp(p + [l], t) + WithTimestamp([m], t)
  {
    var wp := WithTimestamp(p, t);
    WithTimestampConcat(ip, [l], t);
    WithTimestampConcat(p, [l], t);
    WithTimestampSingle(m, t);
    WithTimestampSingle(l, t);
    if m.timestamp == t {
      assert WithTimestamp([l], t) == [];
      assert WithTimestamp(ip + [l], t) == wp + [m];
      assert WithTimestamp(p + [l], t) == wp;
    } else {
      assert WithTimestamp([m], t) == [];
      assert WithTimestamp(ip, t) == wp;
      assert WithTimestamp(ip + [l], t) == wp + WithTimestamp([l], t);
    }
  }

  /** Inserting keeps every timestamp's records in order, with `m` after those already there. */
  lemma {:induction false} InsertKeepsTies(r: seq<Message>, m: Message, t: int)
    ensures WithTimestamp(InsertByTimestamp(r, m), t) == WithTimestamp(r, t) + WithTimestamp([m], t)
    decreases |r|
  {
    if |r| == 0 || r[|r| - 1].timestamp <= m.timestamp {
      assert InsertByTimestamp(r, m) == r + [m];
      WithTimestampConcat(r, [m], t);
    } else {
      var p, l := r[..|r| - 1], r[|r| - 1];
      assert r == p + [l];
      assert InsertByTimestamp(r, m) == InsertByTimestamp(p, m) + [l];
      InsertKeepsTies(p, m, t);
      TiesAppendLater(InsertByTimestamp(p, m), p, l, m, t);
    }
  }

  lemma {:induction false} InsertPermutes(r: seq<Message>, m: Message)
    ensures multiset(InsertByTimestamp(r, m)) == multiset(r) + multiset{m}
    decreases |r|
  {
    if !(|r| == 0 || r[|r| - 1].timestamp <= m.timestamp) {
      var p, l := r[..|r| - 1], r[|r| - 1];
      assert r == p + [l];
      InsertPermutes(p, m);
    }
  }

  lemma {:induction false} InsertSorted(r: seq<Message>, m: Message)
    requires SortedByTimestamp(r)
    ensures SortedByTimestamp(InsertByTimestamp(r, m))
    decreases |r|
  {
    if !(|r| == 0 || r[|r| - 1].timestamp <= m.timestamp) {
      var p, l := r[..|r| - 1], r[|r| - 1];
      assert r == p + [l];
      InsertSorted(p, m);
      InsertPermutes(p, m);
      var ip := InsertByTimestamp(p, m);
      forall i | 0 <= i < |ip| ensures ip[i].timestamp <= l.timestamp {
        var x := ip[i];
        assert x in multiset(ip);
        if x != m {
          assert x in multiset(p);
          var k :| 0 <= k < |p| && p[k] == x;
          assert r[k] == x;
        }
      }
    }
  }

  /** The sort is a permutation, is ordered by timestamp, and keeps the merge order among equal timestamps. */
  lemma {:induction false} SortCorrect(s: seq<Message>)
    ensures multiset(SortByTimestamp(s)) == multiset(s)
    ensures |SortByTimestamp(s)| == |s|
    ensures SortedByTimestamp(SortByTimestamp(s))
    ensures forall t :: WithTimestamp(SortByTimestamp(s), t) == WithTimestamp(s, t)
    decreases |s|
  {
    if |s| > 0 {
      var p, m := s[..|s| - 1], s[|s| - 1];
      assert s == p + [m];
      SortCorrect(p);
      InsertPermutes(SortByTimestamp(p), m);
      InsertSorted(SortByTimestamp(p), m);
      forall t ensures WithTimestamp(SortByTimestamp(s), t) == WithTimestamp(s, t) {
        InsertKeepsTies(SortByTimestamp(p), m, t);
        WithTimestampConcat(p, [m], t);
      }
      assert |SortByTimestamp(s)| == |multiset(SortByTimestamp(s))|;
    }
  }

  lemma {:induction false} InsertKeepsKeysDistinct(r: seq<Message>, m: Message)
    requires DistinctKeys(r) && Key(m) !in KeySet(r)
    ensures DistinctKeys(InsertByTimestamp(r, m)) && KeySet(InsertByTimestamp(r, m)) == KeySet(r) + {Key(m)}
    decreases |r|
  {
    if |r| == 0 || r[|r| - 1].timestamp <= m.timestamp {
      DistinctAppend(r, m);
    } else {
      var p, l := r[..|r| - 1], r[|r| - 1];
      assert r == p + [l];
      var ip := InsertByTimestamp(p, m);
      assert InsertByTimestamp(r, m) == ip + [l];
      DistinctLast(p, l);
      KeySetAppend(p, l);
      InsertKeepsKeysDistinct(p, m);
      assert KeySet(ip) == KeySet(p) + {Key(m)};
      assert Key(l) !in KeySet(ip);
      DistinctAppend(ip, l);
    }
  }

  lemma {:induction false} SortKeepsKeysDistinct(s: seq<Message>)
    requires DistinctKeys(s)
    ensures DistinctKeys(SortByTimestamp(s)) && KeySet(SortByTimestamp(s)) == KeySet(s)
    decreases |s|
  {
    if |s| > 0 {
      var p, m := s[..|s| - 1], s[|s| - 1];
      assert s == p + [m];
      DistinctLast(p, m);
      SortKeepsKeysDistinct(p);
      KeySetAppend(p, m);
      InsertKeepsKeysDistinct(SortByTimestamp(p), m);
    }
  }

  lemma {:induction false} WithTimestampMembers(s: seq<Message>, t: int, x: Message)
    ensures x in WithTimestamp(s, t) <==> x in s && x.timestamp == t
    decreases |s|
  {
    if |s| > 0 {
      var p := s[..|s| - 1];
      assert s == p + [s[|s| - 1]];
      WithTimestampMembers(p, t, x);
    }
  }

  lemma WithTimestampLast(s: seq<Message>, t: int)
    requires |s| > 0
    ensures WithTimestamp(s, t)
         == WithTimestamp(s[..|s| - 1], t) + (if s[|s| - 1].timestamp == t then [s[|s| - 1]] else [])
  {
  }

  lemma SortedLastIsLatest(s: seq<Message>, x: Message)
    requires SortedByTimestamp(s) && x in s
    ensures x.timestamp <= s[|s| - 1].timestamp
  {
    var k :| 0 <= k < |s| && s[k] == x;
  }

  /** `a` and `b` hold the same records for every timestamp, in the same order. */
  ghost predicate SameTies(a: seq<Message>, b: seq<Message>) {
    forall t :: WithTimestamp(a, t) == WithTimestamp(b, t)
  }

  lemma LastStampsAgree(a: seq<Message>, b: seq<Message>)
    requires SortedByTimestamp(a) && SortedByTimestamp(b) && |a| > 0 && |b| > 0
    requires SameTies(a, b)
    ensures a[|a| - 1].timestamp == b[|b| - 1].timestamp
  {
    var la, lb := a[|a| - 1], b[|b| - 1];
    WithTimestampLast(a, la.timestamp);
    WithTimestampMembers(b, la.timestamp, la);
    SortedLastIsLatest(b, la);
    WithTimestampLast(b, lb.timestamp);
    WithTimestampMembers(a, lb.timestamp, lb);
    SortedLastIsLatest(a, lb);
  }

  /** The latest-stamped record of a sorted sequence is the last one with that stamp. */
  lemma SameLast(a: seq<Message>, b: seq<Message>)
    requires SortedByTimestamp(a) && SortedByTimestamp(b) && |a| > 0
    requires SameTies(a, b)
    ensures |b| > 0 && a[|a| - 1] == b[|b| - 1]
    ensures SameTies(a[..|a| - 1], b[..|b| - 1])
  {
    var la := a[|a| - 1];
    var T := la.timestamp;
    WithTimestampLast(a, T);
    assert |b| > 0;
    LastStampsAgree(a, b);
    var lb := b[|b| - 1];
    WithTimestampLast(b, T);
    var a', b' := a[..|a| - 1], b[..|b| - 1];
    var wa, wb := WithTimestamp(a', T), WithTimestamp(b', T);
    assert wa + [la] == wb + [lb];
    assert |wa| == |wb|;
    assert (wa + [la])[..|wa|] == wa && (wb + [lb])[..|wb|] == wb;
    assert (wa + [la])[|wa|] == la && (wb + [lb])[|wb|] == lb;
    assert wa == wb && la == lb;
    forall t ensures WithTimestamp(a', t) == WithTimestamp(b', t) {
      WithTimestampLast(a, t);
      WithTimestampLast(b, t);
      assert WithTimestamp(a, t) == WithTimestamp(b, t);
      if t != T {
        assert WithTimestamp(a, t) == WithTimestamp(a', t) + [] == WithTimestamp(a', t);
        assert WithTimestamp(b, t) == WithTimestamp(b', t) + [] == WithTimestamp(b', t);
      }
    }
  }

  /**
   * Sorting by timestamp while keeping each timestamp's records in their
   * original order leaves no choice: two such arrangements are equal.
   */
  lemma {:induction false} SortUnique(a: seq<Message>, b: seq<Message>)
    requires SortedByTimestamp(a) && SortedByTimestamp(b)
    requires SameTies(a, b)
    ensures a == b
    decreases |a| + |b|
  {
    if |a| > 0 {
      SameLast(a, b);
      SortUnique(a[..|a| - 1], b[..|b| - 1]);
      assert a == a[..|a| - 1] + [a[|a| - 1]] && b == b[..|b| - 1] + [b[|b| - 1]];
    } else if |b| > 0 {
      SameLast(b, a);
    }
  }

  /**
   * Any arrangement of `s` ordered by timestamp that keeps each timestamp's
   * records in their order in `s` is `SortByTimestamp(s)`: the function is the
   * result of every stable sort with this comparator.
   */
  lemma StableSortIsSortByTimestamp(s: seq<Message>, r: seq<Message>)
    requires SortedByTimestamp(r)
    requires forall t :: WithTimestamp(r, t) == WithTimestamp(s, t)
    ensures r == SortByTimestamp(s)
  {
    SortCorrect(s);
    SortUnique(r, SortByTimestamp(s));
  }

  // ---------------------------------------------------------------------------
  // Truncation and the whole read path

  /** `merged.slice(Math.max(0, merged.length - limit))`: the most recent `limit` records, none for a limit of 0 or less. */
  function TakeLast(s: seq<Message>, limit: int): (r: seq<Message>)
    ensures |r| == if limit <= 0 then 0 else if limit < |s| then limit else |s|
    decreases |s|
  {
    if limit <= 0 then [] else if |s| <= limit then s else TakeLast(s[1..], limit)
  }

  /** The kept records are the suffix of `s` that starts at `Math.max(0, s.length - limit)`. */
  lemma {:induction false} TakeLastSuffix(s: seq<Message>, limit: int)
    ensures var start := if |s| - limit > 0 then |s| - limit else 0;
            TakeLast(s, limit) == if start >= |s| then [] else s[start..]
    decreases |s|
  {
    if limit > 0 && |s| > limit {
      TakeLastSuffix(s[1..], limit);
      assert s[1..][|s| - 1 - limit..] == s[|s| - limit..];
    }
  }

  /** What `getHistoryForSession` returns for the two settled reads. */
  function Reconcile(dd: Settled<seq<Message>>, pg: Settled<seq<Message>>, limit: int): seq<Message> {
    TakeLast(SortByTimestamp(Dedup(OrEmpty(dd) + OrEmpty(pg))), limit)
  }

  lemma DedupStep(s: seq<Message>, i: nat)
    requires i < |s|
    ensures Dedup(s[..i + 1])
         == if Key(s[i]) in KeySet(Dedup(s[..i])) then Dedup(s[..i]) else Dedup(s[..i]) + [s[i]]
  {
    assert s[..i + 1][..i] == s[..i];
  }

  /** `getHistoryForSession(sessionId, limit)`, given the settled results of the two store reads. */
  /** The `seen`-set loop of `getHistoryForSession`: keeps the first record of every key, in merge order. */
  method MergeDistinct(all: seq<Message>) returns (merged: seq<Message>)
    ensures merged == Dedup(all)
  {
    var seen: set<string> := {};
    merged := [];
    for i := 0 to |all|
      invariant merged == Dedup(all[..i])
      invariant seen == KeySet(merged)
    {
      DedupStep(all, i);
      var k := Key(all[i]);
      if k !in seen {
        KeySetAppend(merged, all[i]);
        seen := seen + {k};
        merged := merged + [all[i]];
      }
    }
    assert all[..|all|] == all;
  }

  method GetHistoryForSession(dd: Settled<seq<Message>>, pg: Settled<seq<Message>>, limit: int := DEFAULT_LIMIT)
    returns (history: seq<Message>)
    ensures history == Reconcile(dd, pg, limit)
  {
    var dynamo := if dd.Fulfilled? then dd.value else [];
    var postgres := if pg.Fulfilled? then pg.value else [];
    var merged := MergeDistinct(dynamo + postgres);
    assert merged == Dedup(OrEmpty(dd) + OrEmpty(pg));
    var sorted := SortByTimestamp(merged);
    var start := if |sorted| - limit > 0 then |sorted| - limit else 0;
    history := if start >= |sorted| then [] else sorted[start..];
    TakeLastSuffix(sorted, limit);
  }

  /** A suffix of a timestamp-ordered list with distinct keys is ordered, has distinct keys, and holds only its records. */
  lemma TakeLastKeeps(s: seq<Message>, limit: int)
    requires DistinctKeys(s) && SortedByTimestamp(s)
    ensures var r := TakeLast(s, limit);
            DistinctKeys(r) && SortedByTimestamp(r) && forall x :: x in r ==> x in s
  {
    var r := TakeLast(s, limit);
    var k := |s| - |r|;
    TakeLastSuffix(s, limit);
    assert r == s[k..];
    assert forall i :: 0 <= i < |r| ==> r[i] == s[k + i];
  }

  /** Every record of the sorted deduplicated merge is the first of its key in the merge. */
  lemma SortedDedupFirst(all: seq<Message>)
    ensures forall x :: x in SortByTimestamp(Dedup(all)) ==> FirstWithKey(all, Key(x)) == Some(x)
  {
    var d := Dedup(all);
    DedupKeepsFirst(all);
    SortCorrect(d);
    forall x | x in SortByTimestamp(d) ensures FirstWithKey(all, Key(x)) == Some(x) {
      assert x in multiset(SortByTimestamp(d));
      assert x in multiset(d);
      var i :| 0 <= i < |d| && d[i] == x;
    }
  }

  /**
   * The reconciled history: no two records share a key, each record is the
   * first of its key in Dynamo-then-Postgres order, it is ordered by
   * timestamp, it holds min(limit, distinct keys) records (none for a limit of
   * 0 or less) and is the most recent part of the sorted merge; when the limit
   * does not cut, every distinct key is represented.
   */
  lemma ReconcileCorrect(dd: Settled<seq<Message>>, pg: Settled<seq<Message>>, limit: int)
    ensures var all := OrEmpty(dd) + OrEmpty(pg);
            var h := Reconcile(dd, pg, limit);
            && DistinctKeys(h)
            && SortedByTimestamp(h)
            && (forall x :: x in h ==> FirstWithKey(all, Key(x)) == Some(x))
            && |h| == (if limit <= 0 then 0 else if limit < |KeySet(all)| then limit else |KeySet(all)|)
            && (limit >= |KeySet(all)| ==> KeySet(h) == KeySet(all))
  {
    var all := OrEmpty(dd) + OrEmpty(pg);
    var d := Dedup(all);
    var sorted := SortByTimestamp(d);
    DedupKeys(all);
    DedupLength(all);
    SortCorrect(d);
    SortKeepsKeysDistinct(d);
    SortedDedupFirst(all);
    TakeLastKeeps(sorted, limit);
    if limit >= |KeySet(all)| {
      assert TakeLast(sorted, limit) == sorted;
    }
  }

  /** Nothing is invented: every returned record was read from one of the stores. */
  lemma ReconcileFromInputs(dd: Settled<seq<Message>>, pg: Settled<seq<Message>>, limit: int)
    ensures forall x :: x in Reconcile(dd, pg, limit) ==> x in OrEmpty(dd) + OrEmpty(pg)
  {
    ReconcileCorrect(dd, pg, limit);
    forall x | x in Reconcile(dd, pg, limit) ensures x in OrEmpty(dd) + OrEmpty(pg) {
      FirstWithKeyFound(OrEmpty(dd) + OrEmpty(pg), Key(x));
    }
  }

  /** Both reads failing yields an empty history. */
  lemma BothReadsFail(limit: int)
    ensures Reconcile(Rejected, Rejected, limit) == []
  {
  }

  /** One failing read degrades to the other store's records alone. */
  lemma OneReadFails(records: seq<Message>, limit: int)
    ensures Reconcile(Rejected, Fulfilled(records), limit) == TakeLast(SortByTimestamp(Dedup(records)), limit)
    ensures Reconcile(Fulfilled(records), Rejected, limit) == TakeLast(SortByTimestamp(Dedup(records)), limit)
  {
    assert [] + records == records && records + [] == records;
  }

  /**
   * The key is a bare concatenation: two different records whose fields
   * contain `|` share it, and the second is dropped as a duplicate.
   */
  lemma KeyCollision()
    ensures var a := Message("s", "a|b", "c", 1);
            var b := Message("s", "a", "b|c", 1);
            a != b && Key(a) == Key(b) && Dedup([a, b]) == [a]
  {
    var a := Message("s", "a|b", "c", 1);
    var b := Message("s", "a", "b|c", 1);
    assert IntToString(1) == "1";
    assert Key(a) == Key(b);
    assert [a, b][..1] == [a];
    assert Dedup([a]) == [a] by { assert [a][..0] == []; }
    assert KeySet([a]) == {Key(a)};
  }

  /** The stores' example: the same greeting in both stores plus a reply in one reconcile to two records, in time order. */
  lemma TwoStoresExample()
    ensures var hi := Message("s", "user", "hi", 1);
            var hello := Message("s", "bot", "hello", 2);
            Reconcile(Fulfilled([hi]), Fulfilled([hi, hello]), DEFAULT_LIMIT) == [hi, hello]
  {
    var hi := Message("s", "user", "hi", 1);
    var hello := Message("s", "bot", "hello", 2);
    var all := [hi] + [hi, hello];
    assert IntToString(1) == "1" && IntToString(2) == "2";
    assert Key(hi) != Key(hello);
    assert all[..1] == [hi] && all[..2] == [hi, hi] && all[..3] == all;
    assert [hi][..0] == [];
    assert Dedup([hi]) == [hi];
    assert KeySet([hi]) == {Key(hi)};
    assert Dedup([hi, hi]) == [hi];
    assert Dedup(all) == [hi, hello];
    assert [hi, hello][..1] == [hi];
    assert SortByTimestamp([hi]) == [hi];
    assert SortByTimestamp([hi, hello]) == [hi, hello];
  }

  // ---------------------------------------------------------------------------
  // Write fan-out

  datatype StoreName = Dynamo | Postgres

  /** The two durable stores as seen by `saveMessage`: what each accepted, and what was attempted and logged. */
  class Stores {
    /** Records each store accepted, in order. */
    var dynamo: seq<Message>
    var postgres: seq<Message>
    /** Every write attempted, in order. */
    var attempts: seq<StoreName>
    /** Failures logged and swallowed. */
    var errorLog: seq<StoreName>

    constructor ()
      ensures dynamo == [] && postgres == [] && attempts == [] && errorLog == []
    {
      dynamo, postgres, attempts, errorLog := [], [], [], [];
    }

    /**
     * Writes to Dynamo, then to Postgres; each failure is logged and
     * swallowed, neither skips the other write, and the call itself never fails.
     */
    method SaveMessage(m: Message, dynamoOk: bool, postgresOk: bool)
      modifies this
      ensures attempts == old(attempts) + [Dynamo, Postgres]
      ensures dynamo == old(dynamo) + (if dynamoOk then [m] else [])
      ensures postgres == old(postgres) + (if postgresOk then [m] else [])
      ensures errorLog == old(errorLog) + (if dynamoOk then [] else [Dynamo]) + (if postgresOk then [] else [Postgres])
    {
      attempts := attempts + [Dynamo];
      if dynamoOk {
        dynamo := dynamo + [m];
      } else {
        errorLog := errorLog + [Dynamo];
      }
      attempts := attempts + [Postgres];
      if postgresOk {
        postgres := postgres + [m];
      } else {
        errorLog := errorLog + [Postgres];
      }
    }
  }
}
