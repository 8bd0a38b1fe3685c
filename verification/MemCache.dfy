/**
  The in-memory cache of optimised images: a least-recently-used cache bounded by entry count and
  by bytes.

  `Recency` is its meaning, a list from least to most recently used. `MemCache` is the code, over
  a map with stamps, a byte counter that saturates and an eviction loop; it is proved to act on
  the list as `Get` and `Put` do.
 */
module ImageCache {
  import opened Bytes
  import opened Wrappers

  const USIZE_MAX: nat := 0xFFFF_FFFF_FFFF_FFFF
  const ISIZE_MAX: nat := 0x7FFF_FFFF_FFFF_FFFF
  const U64_MAX: nat := 0xFFFF_FFFF_FFFF_FFFF

  type Key = string

  datatype HotEntry = HotEntry(bytes: seq<Byte>, maxAge: nat, expireAtMs: nat, etag: string, extension: string)

  datatype Limits = Limits(maxEntries: nat, maxBytes: nat)

  // ---------------------------------------------------------------- the list

  /** Least recently used first. */
  type Recency = seq<(Key, HotEntry)>

  function Total(l: Recency): nat {
    if l == [] then 0 else |l[0].1.bytes| + Total(l[1..])
  }

  function Without(l: Recency, k: Key): Recency {
    if l == [] then [] else if l[0].0 == k then Without(l[1..], k) else [l[0]] + Without(l[1..], k)
  }

  function Find(l: Recency, k: Key): Option<HotEntry> {
    if l == [] then None else if l[0].0 == k then Some(l[0].1) else Find(l[1..], k)
  }

  /** A hit makes its entry the most recent; a miss changes nothing. */
  function ListGet(l: Recency, k: Key): Recency {
    if Find(l, k).None? then l else Without(l, k) + [(k, Find(l, k).value)]
  }

  function SatAdd(a: nat, b: nat): nat { if a + b <= USIZE_MAX then a + b else USIZE_MAX }

  function SatSub(a: nat, b: nat): nat { if a >= b then a - b else 0 }

  predicate Over(l: Recency, bytes: nat, limits: Limits) { |l| > limits.maxEntries || bytes > limits.maxBytes }

  /** The eviction loop: from the old end, as long as a limit is exceeded by the count or by the counter `bytes`. */
  function Evict(l: Recency, bytes: nat, limits: Limits): (Recency, nat) {
    if Over(l, bytes, limits) && l != [] then Evict(l[1..], SatSub(bytes, |l[0].1.bytes|), limits) else (l, bytes)
  }

  /** `put` on the list and on the counter. */
  function ListPut(l: Recency, bytes: nat, k: Key, e: HotEntry, limits: Limits): (Recency, nat) {
    var freed := match Find(l, k) case None => bytes case Some(prev) => SatSub(bytes, |prev.bytes|);
    Evict(Without(l, k) + [(k, e)], SatAdd(freed, |e.bytes|), limits)
  }

  // ---------------------------------------------------------------- what the list operations promise

  ghost predicate Distinct(l: Recency) {
    l == [] || (Find(l[1..], l[0].0).None? && Distinct(l[1..]))
  }

  lemma {:induction false} TotalConcat(a: Recency, b: Recency)
    ensures Total(a + b) == Total(a) + Total(b)
  {
    if a == [] {
      assert a + b == b;
    } else {
      assert (a + b)[1..] == a[1..] + b;
      TotalConcat(a[1..], b);
    }
  }

  lemma {:induction false} FindConcat(a: Recency, b: Recency, k: Key)
    ensures Find(a + b, k) == if Find(a, k).Some? then Find(a, k) else Find(b, k)
  {
    if a == [] {
      assert a + b == b;
    } else {
      assert (a + b)[1..] == a[1..] + b;
      FindConcat(a[1..], b, k);
    }
  }

  lemma {:induction false} DistinctSnoc(l: Recency, x: (Key, HotEntry))
    requires Distinct(l) && Find(l, x.0).None?
    ensures Distinct(l + [x])
  {
    if l != [] {
      assert (l + [x])[1..] == l[1..] + [x];
      DistinctSnoc(l[1..], x);
      FindConcat(l[1..], [x], l[0].0);
    }
  }

  /** Removing a key removes its entry and its bytes and nothing else. */
  lemma {:induction false} WithoutMeaning(l: Recency, k: Key, j: Key)
    requires Distinct(l)
    ensures Distinct(Without(l, k))
    ensures Find(Without(l, k), j) == if j == k then None else Find(l, j)
    ensures Total(Without(l, k)) == Total(l) - (if Find(l, k).Some? then |Find(l, k).value.bytes| else 0)
  {
    if l != [] {
      WithoutMeaning(l[1..], k, j);
      WithoutMeaning(l[1..], k, l[0].0);
      WithoutMeaning(l[1..], k, k);
      if l[0].0 == k {
        WithoutAbsent(l[1..], k);
      }
    }
  }

  lemma {:induction false} WithoutAbsent(l: Recency, k: Key)
    requires Find(l, k).None?
    ensures Without(l, k) == l
  {
    if l != [] {
      WithoutAbsent(l[1..], k);
    }
  }

  /** A hit returns the entry, forgets nothing and moves the entry to the recent end. */
  lemma GetMeaning(l: Recency, k: Key, j: Key)
    requires Distinct(l)
    ensures Distinct(ListGet(l, k)) && Total(ListGet(l, k)) == Total(l)
    ensures Find(ListGet(l, k), j) == Find(l, j)
    ensures Find(l, k).Some? ==> ListGet(l, k)[|ListGet(l, k)| - 1] == (k, Find(l, k).value)
  {
    if Find(l, k).Some? {
      var x := (k, Find(l, k).value);
      WithoutMeaning(l, k, j);
      WithoutMeaning(l, k, k);
      DistinctSnoc(Without(l, k), x);
      FindConcat(Without(l, k), [x], j);
      TotalConcat(Without(l, k), [x]);
    }
  }

  /** How many entries the eviction loop drops. */
  function Dropped(l: Recency, bytes: nat, limits: Limits): (n: nat)
    ensures n <= |l|
  {
    if Over(l, bytes, limits) && l != [] then 1 + Dropped(l[1..], SatSub(bytes, |l[0].1.bytes|), limits) else 0
  }

  /** With an exact counter the eviction drops the shortest run of least recently used entries that brings
      both the count and the bytes within their limits, and the counter stays exact. */
  lemma {:induction false} EvictMeaning(l: Recency, limits: Limits, m: nat)
    ensures var n := Dropped(l, Total(l), limits);
      && Evict(l, Total(l), limits) == (l[n..], Total(l[n..]))
      && !Over(l[n..], Total(l[n..]), limits)
      && (m < n ==> Over(l[m..], Total(l[m..]), limits))
  {
    if Over(l, Total(l), limits) && l != [] {
      EvictMeaning(l[1..], limits, if m == 0 then 0 else m - 1);
      var n := Dropped(l[1..], Total(l[1..]), limits);
      DropDrop(l, 1, n);
      assert Dropped(l, Total(l), limits) == n + 1;
      if m > 0 {
        assert m <= |l| ==> l[1..][m - 1..] == l[m..];
      }
    }
  }

  lemma {:induction false} LastEntryOver(l: Recency, limits: Limits, n: nat)
    requires n < |l| && !Over(l[n..], Total(l[n..]), limits)
    ensures limits.maxEntries >= 1 && |l[|l| - 1].1.bytes| <= limits.maxBytes
  {
    var last := |l| - 1;
    assert l[n..] == l[n..last] + [l[last]];
    TotalConcat(l[n..last], [l[last]]);
  }

  /** `put`, with an exact counter that does not saturate: both limits hold afterwards, the counter is exact,
      and the list is what was there, new entry last, less the shortest run of oldest entries that must go. */
  lemma PutMeaning(l: Recency, k: Key, e: HotEntry, limits: Limits, m: nat)
    requires Distinct(l) && Total(Without(l, k)) + |e.bytes| <= USIZE_MAX
    ensures var all := Without(l, k) + [(k, e)];
      var (l', bytes') := ListPut(l, Total(l), k, e, limits);
      var n := |all| - |l'|;
      && 0 <= n && l' == all[n..] && Distinct(l')
      && |l'| <= limits.maxEntries && bytes' == Total(l') <= limits.maxBytes
      && (m < n ==> Over(all[m..], Total(all[m..]), limits))
  {
    var all := Without(l, k) + [(k, e)];
    PutIsEvict(l, k, e, limits);
    EvictMeaning(all, limits, m);
    DistinctSuffix(all, Dropped(all, Total(all), limits));
  }

  lemma PutIsEvict(l: Recency, k: Key, e: HotEntry, limits: Limits)
    requires Distinct(l) && Total(Without(l, k)) + |e.bytes| <= USIZE_MAX
    ensures var all := Without(l, k) + [(k, e)];
      Distinct(all) && ListPut(l, Total(l), k, e, limits) == Evict(all, Total(all), limits)
  {
    WithoutMeaning(l, k, k);
    assert Total([(k, e)]) == |e.bytes|;
    TotalConcat(Without(l, k), [(k, e)]);
    DistinctSnoc(Without(l, k), (k, e));
  }

  /** The new entry is kept, as the most recent one, exactly if it fits by itself. */
  lemma PutKeepsWhatFits(l: Recency, k: Key, e: HotEntry, limits: Limits)
    requires Distinct(l) && Total(Without(l, k)) + |e.bytes| <= USIZE_MAX
    ensures var l' := ListPut(l, Total(l), k, e, limits).0;
      if limits.maxEntries >= 1 && |e.bytes| <= limits.maxBytes then l' != [] && l'[|l'| - 1] == (k, e) else l' == []
  {
    PutIsEvict(l, k, e, limits);
    EvictKeepsWhatFits(Without(l, k), (k, e), limits);
  }

  lemma EvictKeepsWhatFits(l: Recency, x: (Key, HotEntry), limits: Limits)
    ensures var kept := Evict(l + [x], Total(l + [x]), limits).0;
      if limits.maxEntries >= 1 && |x.1.bytes| <= limits.maxBytes then kept != [] && kept[|kept| - 1] == x
      else kept == []
  {
    var all, last := l + [x], |l|;
    EvictMeaning(all, limits, last);
    assert all[last..] == [x];
    var n := Dropped(all, Total(all), limits);
    if n <= last {
      LastEntryOver(all, limits, n);
      assert all[n..][|all[n..]| - 1] == x;
    }
  }

  lemma {:induction false} DistinctSuffix(l: Recency, n: nat)
    requires Distinct(l) && n <= |l|
    ensures Distinct(l[n..])
  {
    if n > 0 {
      DistinctSuffix(l[1..], n - 1);
      DropDrop(l, 1, n - 1);
    }
  }

  /** The byte counter stays exact precisely when the bytes after insertion fit in a `usize`. */
  lemma CounterExactIff(l: Recency, k: Key, e: HotEntry)
    requires Distinct(l) && Total(l) <= USIZE_MAX
    ensures var freed := match Find(l, k) case None => Total(l) case Some(prev) => SatSub(Total(l), |prev.bytes|);
      SatAdd(freed, |e.bytes|) == Total(Without(l, k) + [(k, e)]) <==> Total(Without(l, k)) + |e.bytes| <= USIZE_MAX
  {
    WithoutMeaning(l, k, k);
    TotalConcat(Without(l, k), [(k, e)]);
  }

  /** Where it saturates, the byte limit can be left exceeded: three entries of lengths a slice may have suffice. */
  lemma SaturationOverruns(a: HotEntry, b: HotEntry, c: HotEntry)
    requires |a.bytes| <= ISIZE_MAX && |b.bytes| <= ISIZE_MAX && |c.bytes| <= ISIZE_MAX
    requires |a.bytes| + |b.bytes| + |c.bytes| > USIZE_MAX
    ensures var limits := Limits(3, USIZE_MAX);
      var (l, bytes) := ListPut([("a", a), ("b", b)], |a.bytes| + |b.bytes|, "c", c, limits);
      bytes <= limits.maxBytes < Total(l)
  {
    var l := [("a", a), ("b", b)];
    var all := l + [("c", c)];
    assert l[1..] == [("b", b)] && l[1..][1..] == [];
    assert Find([("b", b)], "c").None? && Find(l, "c").None? by {
      assert "a"[0] != "c"[0] && "b"[0] != "c"[0];
      assert Find([], "c").None? && [("b", b)][1..] == [];
    }
    WithoutAbsent(l, "c");
    TotalConcat(l, [("c", c)]);
    assert Total([("b", b)]) == |b.bytes|;
    assert Total(l) == |a.bytes| + |b.bytes|;
    assert [("c", c)][1..] == [];
  }

  // ---------------------------------------------------------------- whole runs

  datatype Op = DoGet(k: Key) | DoPut(k: Key, e: HotEntry)

  function Run(ops: seq<Op>, limits: Limits): (Recency, nat) {
    if ops == [] then ([], 0)
    else
      var (l, bytes) := Run(ops[..|ops| - 1], limits);
      match ops[|ops| - 1]
      case DoGet(k) => (ListGet(l, k), bytes)
      case DoPut(k, e) => ListPut(l, bytes, k, e, limits)
  }

  /** Over any run whose entries leave room for the counter, both limits hold after every operation and the
      counter is the exact sum of the entry sizes. */
  lemma {:induction false} RunKeepsLimits(ops: seq<Op>, limits: Limits)
    requires forall i :: 0 <= i < |ops| && ops[i].DoPut? ==> limits.maxBytes + |ops[i].e.bytes| <= USIZE_MAX
    ensures var (l, bytes) := Run(ops, limits);
      Distinct(l) && bytes == Total(l) <= limits.maxBytes && |l| <= limits.maxEntries
  {
    if ops != [] {
      RunKeepsLimits(ops[..|ops| - 1], limits);
      var (l, bytes) := Run(ops[..|ops| - 1], limits);
      match ops[|ops| - 1]
      case DoGet(k) =>
        GetMeaning(l, k, k);
        GetLength(l, k);
      case DoPut(k, e) =>
        WithoutMeaning(l, k, k);
        PutMeaning(l, k, e, limits, 0);
    }
  }

  lemma {:induction false} WithoutLength(l: Recency, k: Key)
    requires Distinct(l)
    ensures |Without(l, k)| == |l| - (if Find(l, k).Some? then 1 else 0)
  {
    if l != [] {
      WithoutLength(l[1..], k);
      if l[0].0 == k {
        WithoutAbsent(l[1..], k);
      }
    }
  }

  lemma GetLength(l: Recency, k: Key)
    requires Distinct(l)
    ensures |ListGet(l, k)| == |l|
  {
    WithoutLength(l, k);
  }

  // ---------------------------------------------------------------- the cache itself

  /** The map holds the entries of the list, with stamps that increase from the old end to the recent one. */
  ghost predicate Represents(entries: map<Key, (HotEntry, nat)>, order: nat, l: Recency) {
    && Distinct(l) && |entries| == |l|
    && (forall k :: k in entries <==> Find(l, k).Some?)
    && (forall k :: k in entries ==> Find(l, k) == Some(entries[k].0))
    && (forall i :: 0 <= i < |l| ==> l[i].0 in entries && entries[l[i].0].1 <= order)
    && (forall i, j :: 0 <= i < j < |l| ==> entries[l[i].0].1 < entries[l[j].0].1)
  }

  lemma {:induction false} FindGivesIndex(l: Recency, k: Key) returns (i: nat)
    requires Find(l, k).Some?
    ensures i < |l| && l[i] == (k, Find(l, k).value)
  {
    if l[0].0 == k {
      i := 0;
    } else {
      i := FindGivesIndex(l[1..], k);
      i := i + 1;
    }
  }

  lemma {:induction false} IndexFinds(l: Recency, i: nat)
    requires Distinct(l) && i < |l|
    ensures Find(l, l[i].0) == Some(l[i].1)
    ensures forall j :: 0 <= j < |l| && l[j].0 == l[i].0 ==> j == i
  {
    if i > 0 {
      IndexFinds(l[1..], i - 1);
      assert forall j :: 1 <= j < |l| ==> l[j] == l[1..][j - 1];
    } else {
      forall j | 1 <= j < |l|
        ensures l[j].0 != l[0].0
      {
        IndexFinds(l[1..], j - 1);
        assert l[1..][j - 1] == l[j];
      }
    }
  }

  /** The entry with the least stamp is the least recently used one. */
  lemma LeastStampIsOldest(entries: map<Key, (HotEntry, nat)>, order: nat, l: Recency, victim: Key)
    requires Represents(entries, order, l) && l != [] && victim in entries
    requires forall k :: k in entries ==> entries[victim].1 <= entries[k].1
    ensures victim == l[0].0
  {
    var i := FindGivesIndex(l, victim);
    assert l[0].0 in entries;
  }

  lemma OldestRemoved(entries: map<Key, (HotEntry, nat)>, order: nat, l: Recency)
    requires Represents(entries, order, l) && l != []
    ensures Represents(entries - {l[0].0}, order, l[1..])
  {
    var k0, entries' := l[0].0, entries - {l[0].0};
    assert k0 in entries;
    assert entries'.Keys == entries.Keys - {k0};
    assert |entries'| == |entries'.Keys| && |entries| == |entries.Keys|;
    forall i | 0 <= i < |l| - 1
      ensures l[1..][i].0 in entries' && l[1..][i].0 != k0
    {
      IndexFinds(l, i + 1);
      assert l[1..][i] == l[i + 1];
    }
    forall k
      ensures k in entries' <==> Find(l[1..], k).Some?
      ensures k in entries' ==> Find(l[1..], k) == Some(entries'[k].0)
    {
      if k != k0 {
        assert Find(l, k) == Find(l[1..], k);
      }
    }
  }

  lemma {:induction false} WithoutAt(l: Recency, i: nat)
    requires Distinct(l) && i < |l|
    ensures Without(l, l[i].0) == l[..i] + l[i + 1..]
  {
    var k := l[i].0;
    if i == 0 {
      WithoutAbsent(l[1..], k);
    } else {
      IndexFinds(l, i);
      WithoutAt(l[1..], i - 1);
      assert l[1..][..i - 1] == l[1..i] && l[1..][i..] == l[i + 1..];
      assert l[..i] == [l[0]] + l[1..i];
    }
  }

  /** Taking the key out keeps the rest of the list in stamp order. */
  lemma OthersStay(entries: map<Key, (HotEntry, nat)>, order: nat, l: Recency, k: Key)
    requires Represents(entries, order, l)
    ensures var o := Without(l, k);
      && (forall i :: 0 <= i < |o| ==> o[i].0 in entries && o[i].0 != k && entries[o[i].0].1 <= order)
      && (forall i, j :: 0 <= i < j < |o| ==> entries[o[i].0].1 < entries[o[j].0].1)
  {
    if Find(l, k).Some? {
      var i := FindGivesIndex(l, k);
      WithoutAt(l, i);
      IndexFinds(l, i);
      var o := Without(l, k);
      assert forall j :: 0 <= j < |o| ==> o[j] == if j < i then l[j] else l[j + 1];
    } else {
      WithoutAbsent(l, k);
    }
  }

  /** Writing an entry under a fresh stamp makes it the most recent one of the list. */
  lemma WriteIsMostRecent(entries: map<Key, (HotEntry, nat)>, order: nat, l: Recency, k: Key, e: HotEntry)
    requires Represents(entries, order, l)
    ensures Represents(entries[k := (e, order + 1)], order + 1, Without(l, k) + [(k, e)])
  {
    var entries', o := entries[k := (e, order + 1)], Without(l, k);
    var l' := o + [(k, e)];
    OthersStay(entries, order, l, k);
    WithoutLength(l, k);
    WithoutMeaning(l, k, k);
    DistinctSnoc(o, (k, e));
    forall j
      ensures j in entries' <==> Find(l', j).Some?
      ensures j in entries' ==> Find(l', j) == Some(entries'[j].0)
    {
      WithoutMeaning(l, k, j);
      FindConcat(o, [(k, e)], j);
    }
  }

  class MemCache {
    var entries: map<Key, (HotEntry, nat)>
    var order: nat
    var bytes: nat
    const limits: Limits
    ghost var recency: Recency

    ghost predicate Valid()
      reads this
    {
      Represents(entries, order, recency)
    }

    constructor WithLimits(maxEntries: nat, maxBytes: nat)
      ensures Valid() && recency == [] && bytes == 0 && order == 0 && limits == Limits(maxEntries, maxBytes)
    {
      entries, order, bytes, limits, recency := map[], 0, 0, Limits(maxEntries, maxBytes), [];
    }

    method Get(key: Key) returns (r: Option<HotEntry>)
      requires Valid() && order < U64_MAX
      modifies this
      ensures Valid() && order == old(order) + 1 && bytes == old(bytes)
      ensures r == old(Find(recency, key)) && recency == ListGet(old(recency), key)
    {
      order := order + 1;
      if key !in entries {
        return None;
      }
      WriteIsMostRecent(entries, order - 1, recency, key, entries[key].0);
      r := Some(entries[key].0);
      recency := ListGet(recency, key);
      entries := entries[key := (entries[key].0, order)];
    }

    method Put(key: Key, entry: HotEntry)
      requires Valid() && order < U64_MAX
      modifies this
      ensures Valid() && order == old(order) + 1
      ensures (recency, bytes) == ListPut(old(recency), old(bytes), key, entry, limits)
    {
      var added := |entry.bytes|;
      var prev := Write(key, entry);
      if prev.Some? {
        bytes := SatSub(bytes, |prev.value.bytes|);
      }
      bytes := SatAdd(bytes, added);
      EvictLoop();
    }

    /** `g.order += 1` and `g.map.insert`. */
    method Write(key: Key, entry: HotEntry) returns (prev: Option<HotEntry>)
      requires Valid() && order < U64_MAX
      modifies this
      ensures Valid() && order == old(order) + 1 && bytes == old(bytes)
      ensures prev == old(Find(recency, key)) && recency == old(Without(recency, key)) + [(key, entry)]
    {
      WriteIsMostRecent(entries, order, recency, key, entry);
      order := order + 1;
      prev := if key in entries then Some(entries[key].0) else None;
      recency := Without(recency, key) + [(key, entry)];
      entries := entries[key := (entry, order)];
    }

    /** `evict`. */
    method EvictLoop()
      requires Valid()
      modifies this
      ensures Valid() && order == old(order)
      ensures (recency, bytes) == Evict(old(recency), old(bytes), limits)
    {
      while |entries| > limits.maxEntries || bytes > limits.maxBytes
        invariant Valid() && order == old(order)
        invariant Evict(recency, bytes, limits) == Evict(old(recency), old(bytes), limits)
        decreases |recency|
      {
        if |entries| == 0 {
          break;
        }
        var victim := LeastStamp();
        bytes := SatSub(bytes, |entries[victim].0.bytes|);
        OldestRemoved(entries, order, recency);
        entries := entries - {victim};
        recency := recency[1..];
      }
    }

    /** `min_by_key` over the stamps. */
    method LeastStamp() returns (victim: Key)
      requires Valid() && recency != []
      ensures victim == recency[0].0 && victim in entries && entries[victim].0 == recency[0].1
    {
      LeastExists(entries, order, recency);
      victim :| victim in entries && forall k :: k in entries ==> entries[victim].1 <= entries[k].1;
      LeastStampIsOldest(entries, order, recency, victim);
    }
  }

  lemma LeastExists(entries: map<Key, (HotEntry, nat)>, order: nat, l: Recency)
    requires Represents(entries, order, l) && l != []
    ensures l[0].0 in entries && forall k :: k in entries ==> entries[l[0].0].1 <= entries[k].1
  {
    forall k | k in entries
      ensures entries[l[0].0].1 <= entries[k].1
    {
      var i := FindGivesIndex(l, k);
    }
  }
}
