/**
 The bounded caches' common shape: a map of list elements, a list ordered by recency and a
 byte counter, against a plain sequence of entries with the most recent first.
 */
module Recency {
  import opened Wrappers

  datatype Entry = Entry(key: string, value: string, expires: int)

  /** How many bytes an entry counts for. */
  type Weight = Entry -> nat

  function Without(s: seq<Entry>, key: string): seq<Entry> {
    if s == [] then []
    else
      var n := |s| - 1;
      if s[n].key == key then Without(s[..n], key) else Without(s[..n], key) + [s[n]]
  }

  function Total(s: seq<Entry>, weigh: Weight): nat {
    if s == [] then 0 else Total(s[..|s| - 1], weigh) + weigh(s[|s| - 1])
  }

  predicate DistinctKeys(s: seq<Entry>) {
    forall i, j | 0 <= i < j < |s| :: s[i].key != s[j].key
  }

  /** The entry with a key, wherever it stands. */
  function Find(s: seq<Entry>, key: string): Option<Entry> {
    if s == [] then None else if s[|s| - 1].key == key then Some(s[|s| - 1]) else Find(s[..|s| - 1], key)
  }

  datatype Limits = Limits(entries: int, bytes: int)

  /** One more entry of this size stays within the limits. */
  predicate Fits(s: seq<Entry>, size: nat, limits: Limits, weigh: Weight) {
    |s| < limits.entries && Total(s, weigh) + size <= limits.bytes
  }

  /** Entries are dropped from the old end until one more fits, or none is left. */
  function Fitted(s: seq<Entry>, size: nat, limits: Limits, weigh: Weight): seq<Entry> {
    if s == [] || Fits(s, size, limits, weigh) then s else Fitted(s[..|s| - 1], size, limits, weigh)
  }

  // ---- Facts about the sequence ------------------------------------------------------------

  lemma {:induction false} WithoutIsFiltered(s: seq<Entry>, key: string)
    ensures forall e :: e in Without(s, key) <==> e in s && e.key != key
    ensures |Without(s, key)| <= |s|
    ensures DistinctKeys(s) ==> DistinctKeys(Without(s, key))
  {
    if s != [] {
      var n := |s| - 1;
      WithoutIsFiltered(s[..n], key);
      assert s == s[..n] + [s[n]];
      var front := Without(s[..n], key);
      if DistinctKeys(s) {
        forall e <- front ensures e.key != s[n].key {
          assert e in s[..n];
        }
      }
    }
  }

  lemma {:induction false} WithoutAbsent(s: seq<Entry>, key: string)
    requires forall e <- s :: e.key != key
    ensures Without(s, key) == s
  {
    if s != [] {
      var n := |s| - 1;
      assert s[n] in s;
      forall e <- s[..n] ensures e.key != key {
        assert e in s;
      }
      WithoutAbsent(s[..n], key);
    }
  }

  /** With distinct keys, leaving out a key cuts out the one entry that has it. */
  lemma {:induction false} WithoutCuts(s: seq<Entry>, i: nat)
    requires DistinctKeys(s) && i < |s|
    ensures Without(s, s[i].key) == s[..i] + s[i + 1..]
  {
    var n := |s| - 1;
    if i == n {
      forall e <- s[..n] ensures e.key != s[n].key {
      }
      WithoutAbsent(s[..n], s[n].key);
      assert s[..i] + s[i + 1..] == s[..n];
    } else {
      WithoutCuts(s[..n], i);
      assert s[..n][..i] == s[..i] && s[..n][i + 1..] + [s[n]] == s[i + 1..];
      assert (s[..i] + s[..n][i + 1..]) + [s[n]] == s[..i] + s[i + 1..];
    }
  }

  lemma {:induction false} TotalConcat(a: seq<Entry>, b: seq<Entry>, weigh: Weight)
    ensures Total(a + b, weigh) == Total(a, weigh) + Total(b, weigh)
  {
    if b == [] {
      assert a + b == a;
    } else {
      var n := |b| - 1;
      assert (a + b)[..|a + b| - 1] == a + b[..n];
      TotalConcat(a, b[..n], weigh);
    }
  }

  lemma TotalOfOne(e: Entry, weigh: Weight)
    ensures Total([e], weigh) == weigh(e)
  {
    assert [e][..0] == [];
  }

  lemma TotalCut(s: seq<Entry>, i: nat, weigh: Weight)
    requires i < |s|
    ensures Total(s[..i] + s[i + 1..], weigh) + weigh(s[i]) == Total(s, weigh)
  {
    hide Total;
    TotalConcat(s[..i], s[i + 1..], weigh);
    TotalConcat(s[..i] + [s[i]], s[i + 1..], weigh);
    TotalConcat(s[..i], [s[i]], weigh);
    TotalOfOne(s[i], weigh);
    assert s == (s[..i] + [s[i]]) + s[i + 1..];
  }

  lemma {:induction false} FindsTheEntry(s: seq<Entry>, e: Entry)
    requires DistinctKeys(s)
    ensures Find(s, e.key) == Some(e) <==> e in s
  {
    if s != [] {
      var n := |s| - 1;
      FindsTheEntry(s[..n], e);
      assert s == s[..n] + [s[n]];
      if s[n].key == e.key && e in s[..n] {
        assert false;
      }
    }
  }

  lemma {:induction false} FindsNothing(s: seq<Entry>, key: string)
    ensures Find(s, key).None? <==> forall e <- s :: e.key != key
    ensures Find(s, key).Some? ==> Find(s, key).value in s && Find(s, key).value.key == key
  {
    if s != [] {
      var n := |s| - 1;
      FindsNothing(s[..n], key);
      assert s == s[..n] + [s[n]];
    }
  }

  /** Dropping from the old end keeps a prefix, and ends with enough room or with nothing. */
  lemma {:induction false} FittedIsPrefix(s: seq<Entry>, size: nat, limits: Limits, weigh: Weight)
    ensures var r := Fitted(s, size, limits, weigh);
      r <= s && (r == [] || Fits(r, size, limits, weigh))
      && (forall k | |r| < k <= |s| :: !Fits(s[..k], size, limits, weigh))
  {
    if s != [] && !Fits(s, size, limits, weigh) {
      var n := |s| - 1;
      FittedIsPrefix(s[..n], size, limits, weigh);
      var r := Fitted(s[..n], size, limits, weigh);
      forall k | |r| < k <= |s|
        ensures !Fits(s[..k], size, limits, weigh)
      {
        if k == |s| {
          assert s[..k] == s;
        } else {
          assert s[..k] == s[..n][..k];
        }
      }
    }
  }

  lemma InPrefix(e: Entry, r: seq<Entry>, s: seq<Entry>)
    requires r <= s && e in r
    ensures e in s
  {
    var i :| 0 <= i < |r| && r[i] == e;
    assert s[i] == e;
  }

  /** The entries used since `e`, and `e` itself. */
  function UpTo(s: seq<Entry>, e: Entry): seq<Entry> {
    if s == [] || s[|s| - 1] == e then s else UpTo(s[..|s| - 1], e)
  }

  lemma {:induction false} UpToEnds(s: seq<Entry>, e: Entry)
    requires e in s
    ensures var r := UpTo(s, e); r <= s && r != [] && r[|r| - 1] == e
  {
    if s[|s| - 1] != e {
      var n := |s| - 1;
      assert s == s[..n] + [s[n]];
      UpToEnds(s[..n], e);
    }
  }

  lemma FitsShorter(r: seq<Entry>, s: seq<Entry>, size: nat, limits: Limits, weigh: Weight)
    requires r <= s && Fits(s, size, limits, weigh)
    ensures Fits(r, size, limits, weigh)
  {
    assert s == r + s[|r|..];
    TotalConcat(r, s[|r|..], weigh);
  }

  /** Dropping from the old end keeps an entry exactly when it fits beside those used since. */
  lemma FittedKeepsIff(s: seq<Entry>, e: Entry, size: nat, limits: Limits, weigh: Weight)
    requires DistinctKeys(s) && e in s
    ensures e in Fitted(s, size, limits, weigh) <==> Fits(UpTo(s, e), size, limits, weigh)
  {
    hide Fits, Fitted, UpTo;
    var r, u := Fitted(s, size, limits, weigh), UpTo(s, e);
    FittedIsPrefix(s, size, limits, weigh);
    UpToEnds(s, e);
    if |u| <= |r| {
      assert u <= r && r[|u| - 1] == e;
      FitsShorter(u, r, size, limits, weigh);
    } else {
      assert s[..|u|] == u;
      forall i | 0 <= i < |r|
        ensures r[i] != e
      {
        assert r[i] == s[i] && s[|u| - 1] == e;
      }
    }
  }

  /** The limits hold, and no key occurs twice; an empty cache breaks no limit. */
  predicate Bounded(s: seq<Entry>, limits: Limits, weigh: Weight) {
    DistinctKeys(s) && (s == [] || (|s| <= limits.entries && Total(s, weigh) <= limits.bytes))
  }

  lemma BoundedIsDistinct(s: seq<Entry>, limits: Limits, weigh: Weight)
    requires Bounded(s, limits, weigh)
    ensures DistinctKeys(s)
  {
  }

  lemma CutIsBounded(s: seq<Entry>, key: string, limits: Limits, weigh: Weight)
    requires Bounded(s, limits, weigh)
    ensures Bounded(Without(s, key), limits, weigh)
  {
    hide Total, Without, DistinctKeys;
    WithoutIsFiltered(s, key);
    if e :| e in s && e.key == key {
      var i :| 0 <= i < |s| && s[i] == e;
      WithoutCuts(s, i);
      TotalCut(s, i, weigh);
    } else {
      WithoutAbsent(s, key);
    }
  }

  lemma FrontedIsBounded(s: seq<Entry>, entry: Entry, limits: Limits, weigh: Weight)
    requires Bounded(s, limits, weigh) && Find(s, entry.key) == Some(entry)
    ensures Bounded([entry] + Without(s, entry.key), limits, weigh)
  {
    hide Total, Without, DistinctKeys;
    FindsTheEntry(s, entry);
    var i :| 0 <= i < |s| && s[i] == entry;
    WithoutCuts(s, i);
    MovingKeepsTotal(s, i, weigh);
    CutKeepsDistinct(s, i);
  }

  lemma AddedIsBounded(s: seq<Entry>, entry: Entry, limits: Limits, weigh: Weight)
    requires DistinctKeys(s) && forall e <- s :: e.key != entry.key
    ensures var kept := Fitted(s, weigh(entry), limits, weigh);
      Bounded(if Fits(kept, weigh(entry), limits, weigh) then [entry] + kept else kept, limits, weigh)
  {
    hide Total, Fitted;
    var kept := Fitted(s, weigh(entry), limits, weigh);
    FittedIsPrefix(s, weigh(entry), limits, weigh);
    TotalConcat([entry], kept, weigh);
    TotalOfOne(entry, weigh);
    forall j | 0 <= j < |kept| ensures kept[j].key != entry.key {
      assert kept[j] == s[j];
    }
  }

  // ---- The map, the list and the counter -----------------------------------------------------

  /** An element of a `container/list` list. */
  class Element {
    const entry: Entry

    constructor (entry: Entry)
      ensures this.entry == entry
    {
      this.entry := entry;
    }
  }

  function EntriesOf(order: seq<Element>): (s: seq<Entry>)
    ensures |s| == |order| && forall i | 0 <= i < |s| :: s[i] == order[i].entry
  {
    seq(|order|, i requires 0 <= i < |order| => order[i].entry)
  }

  /** The map holds exactly the listed elements, each under its own key. */
  ghost predicate Linked(items: map<string, Element>, order: seq<Element>) {
    && (forall e <- order :: e.entry.key in items && items[e.entry.key] == e)
    && (forall key <- items :: items[key] in order && items[key].entry.key == key)
    && |items| == |order|
  }

  class Table {
    var items: map<string, Element>
    /** Most recent first. */
    var order: seq<Element>
    var bytes: int
    const weigh: Weight

    function Contents(): seq<Entry>
      reads this
    {
      EntriesOf(order)
    }

    /** Map and list agree, and the counter is the total. */
    ghost predicate Valid()
      reads this
    {
      DistinctKeys(Contents()) && Linked(items, order) && bytes == Total(Contents(), weigh)
    }

    constructor (weigh: Weight)
      ensures Valid() && Contents() == [] && this.weigh == weigh
    {
      items, order, bytes := map[], [], 0;
      this.weigh := weigh;
    }

    /** `removeCachedSignature`, `responseHistory.remove`. */
    method Remove(ghost i: nat, e: Element)
      requires Valid() && i < |order| && order[i] == e
      modifies this
      ensures Valid() && order == old(order)[..i] + old(order)[i + 1..] && items == old(items) - {e.entry.key}
      ensures Contents() == old(Contents())[..i] + old(Contents())[i + 1..] == Without(old(Contents()), e.entry.key)
    {
      hide Total, Without, DistinctKeys, Linked;
      ghost var before := Contents();
      WithoutCuts(before, i);
      TotalCut(before, i, weigh);
      CutKeepsLinks(items, order, i);
      CutKeepsDistinct(before, i);
      items := items - {e.entry.key};
      bytes := bytes - weigh(e.entry);
      order := RemoveElement(order, i, e);
      assert Contents() == before[..i] + before[i + 1..];
    }

    method PushFront(entry: Entry)
      requires Valid() && entry.key !in items
      modifies this
      ensures Valid() && Contents() == [entry] + old(Contents())
    {
      hide Total;
      ghost var before := Contents();
      var e := new Element(entry);
      TotalConcat([entry], before, weigh);
      TotalOfOne(entry, weigh);
      assert forall x <- order :: x.entry.key != entry.key;
      PushKeepsDistinct(entry, before, order);
      items := items[entry.key := e];
      order := [e] + order;
      bytes := bytes + weigh(entry);
      assert Contents() == [entry] + before;
    }

    method MoveToFront(ghost i: nat, e: Element)
      requires Valid() && i < |order| && order[i] == e
      modifies this`order
      ensures Valid() && Contents() == [e.entry] + Without(old(Contents()), e.entry.key)
    {
      hide Total, Without, DistinctKeys, Linked;
      ghost var before := Contents();
      WithoutCuts(before, i);
      MovingKeepsTotal(before, i, weigh);
      CutKeepsDistinct(before, i);
      MovingKeepsLinks(items, order, i);
      MovedEntries(order, i);
      order := RemoveElement(order, i, e);
      order := [e] + order;
    }

    /** Removes the element at the back. */
    method RemoveBack()
      requires Valid() && order != []
      modifies this
      ensures Valid() && Contents() == old(Contents())[..|old(Contents())| - 1]
      ensures forall key :: key !in old(items) ==> key !in items
    {
      hide Total, Without, DistinctKeys, Linked;
      var n := |order| - 1;
      ghost var before := Contents();
      assert before[..n] + before[n + 1..] == before[..n];
      Remove(n, order[n]);
    }

    /** Drops elements from the back until one more entry fits; false when the list runs empty first. */
    method MakeRoom(size: nat, limits: Limits) returns (ok: bool)
      requires Valid()
      modifies this
      ensures Valid() && Contents() == Fitted(old(Contents()), size, limits, weigh)
      ensures ok == Fits(Contents(), size, limits, weigh)
      ensures forall key :: key !in old(items) ==> key !in items
    {
      hide Without, Total, DistinctKeys, Linked, Valid;
      while |items| >= limits.entries || bytes + size > limits.bytes
        invariant Valid() && Fitted(Contents(), size, limits, weigh) == Fitted(old(Contents()), size, limits, weigh)
        invariant forall key :: key !in old(items) ==> key !in items
        decreases |order|
      {
        Counts();
        if order == [] {
          return false;
        }
        RemoveBack();
      }
      Counts();
      return true;
    }

    lemma Counts()
      requires Valid()
      ensures |items| == |Contents()| && bytes == Total(Contents(), weigh)
    {
    }

    /** The position of a key's element; the list itself holds it by reference. */
    lemma Position(key: string) returns (i: nat)
      requires Valid() && key in items
      ensures i < |order| && order[i] == items[key] && items[key].entry.key == key
      ensures Find(Contents(), key) == Some(items[key].entry)
    {
      i :| 0 <= i < |order| && order[i] == items[key];
      FindsTheEntry(Contents(), items[key].entry);
      assert Contents()[i] in Contents();
    }

    lemma Absent(key: string)
      requires Valid() && key !in items
      ensures Find(Contents(), key) == None && Without(Contents(), key) == Contents()
    {
      forall e <- Contents() ensures e.key != key {
        var i :| 0 <= i < |order| && order[i].entry == e;
      }
      FindsNothing(Contents(), key);
      WithoutAbsent(Contents(), key);
    }
  }

  lemma MovingKeepsTotal(s: seq<Entry>, i: nat, weigh: Weight)
    requires i < |s|
    ensures Total([s[i]] + (s[..i] + s[i + 1..]), weigh) == Total(s, weigh)
  {
    hide Total;
    TotalCut(s, i, weigh);
    TotalConcat([s[i]], s[..i] + s[i + 1..], weigh);
    TotalOfOne(s[i], weigh);
  }

  lemma MovedEntries(order: seq<Element>, i: nat)
    requires i < |order|
    ensures var s := EntriesOf(order);
      EntriesOf([order[i]] + (order[..i] + order[i + 1..])) == [s[i]] + (s[..i] + s[i + 1..])
  {
  }

  /** `list.Remove`: the element is found by identity. */
  method RemoveElement(order: seq<Element>, ghost at: nat, e: Element) returns (r: seq<Element>)
    requires at < |order| && order[at] == e && DistinctKeys(EntriesOf(order))
    ensures r == order[..at] + order[at + 1..]
  {
    var i := 0;
    while order[i] != e
      invariant i <= at
      decreases at - i
    {
      i := i + 1;
    }
    ElementsDiffer(order, i, at);
    r := order[..i] + order[i + 1..];
  }

  lemma ElementsDiffer(order: seq<Element>, i: nat, j: nat)
    requires i < |order| && j < |order| && order[i].entry.key == order[j].entry.key && DistinctKeys(EntriesOf(order))
    ensures i == j
  {
    assert EntriesOf(order)[i].key == EntriesOf(order)[j].key;
  }

  lemma CutPosition<T>(s: seq<T>, i: nat, x: T) returns (k: nat)
    requires i < |s| && x in s[..i] + s[i + 1..]
    ensures k < |s| && k != i && s[k] == x
  {
    var j :| 0 <= j < |s| - 1 && (s[..i] + s[i + 1..])[j] == x;
    k := if j < i then j else j + 1;
  }

  lemma CutHolds<T>(s: seq<T>, i: nat, k: nat)
    requires i < |s| && k < |s| && k != i
    ensures s[k] in s[..i] + s[i + 1..]
  {
    var cut := s[..i] + s[i + 1..];
    var j := if k < i then k else k - 1;
    assert cut[j] == s[k];
  }

  lemma CutMembers(order: seq<Element>, i: nat, e: Element)
    requires i < |order| && DistinctKeys(EntriesOf(order))
    ensures e in order[..i] + order[i + 1..] <==> e in order && e != order[i]
    ensures e in order[..i] + order[i + 1..] ==> e.entry.key != order[i].entry.key
  {
    hide DistinctKeys;
    if e in order[..i] + order[i + 1..] {
      var k := CutPosition(order, i, e);
      if e.entry.key == order[i].entry.key {
        ElementsDiffer(order, k, i);
      }
    }
    if e in order && e != order[i] {
      var k :| 0 <= k < |order| && order[k] == e;
      CutHolds(order, i, k);
    }
  }

  lemma RemovingCounts(items: map<string, Element>, key: string)
    requires key in items
    ensures |items - {key}| == |items| - 1
  {
    assert items.Keys == (items - {key}).Keys + {key};
    assert |items.Keys| == |(items - {key}).Keys| + 1;
  }

  lemma CutKeepsDistinct(s: seq<Entry>, i: nat)
    requires DistinctKeys(s) && i < |s|
    ensures DistinctKeys(s[..i] + s[i + 1..]) && DistinctKeys([s[i]] + (s[..i] + s[i + 1..]))
  {
  }

  lemma PushKeepsDistinct(entry: Entry, s: seq<Entry>, order: seq<Element>)
    requires DistinctKeys(s) && s == EntriesOf(order) && forall x <- order :: x.entry.key != entry.key
    ensures DistinctKeys([entry] + s)
  {
    forall j | 0 <= j < |s| ensures s[j].key != entry.key {
      assert order[j] in order;
    }
  }

  lemma CutKeepsLinks(items: map<string, Element>, order: seq<Element>, i: nat)
    requires i < |order| && DistinctKeys(EntriesOf(order)) && Linked(items, order)
    ensures Linked(items - {order[i].entry.key}, order[..i] + order[i + 1..])
  {
    hide DistinctKeys;
    var key := order[i].entry.key;
    var rest, cut := items - {key}, order[..i] + order[i + 1..];
    assert order[i] in order;
    RemovingCounts(items, key);
    forall e: Element | e in cut
      ensures e.entry.key in rest && rest[e.entry.key] == e
    {
      CutMembers(order, i, e);
    }
    forall k <- rest
      ensures rest[k] in cut && rest[k].entry.key == k
    {
      CutMembers(order, i, items[k]);
    }
  }

  lemma MovingKeepsLinks(items: map<string, Element>, order: seq<Element>, i: nat)
    requires i < |order| && DistinctKeys(EntriesOf(order)) && Linked(items, order)
    ensures Linked(items, [order[i]] + (order[..i] + order[i + 1..]))
  {
    hide DistinctKeys;
    var moved := [order[i]] + (order[..i] + order[i + 1..]);
    forall e: Element
      ensures e in moved <==> e in order
    {
      CutMembers(order, i, e);
      assert order[i] in order;
      assert e in moved <==> e == order[i] || e in order[..i] + order[i + 1..];
    }
  }
}
