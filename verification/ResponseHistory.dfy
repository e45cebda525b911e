/**
 `responseHistory`: the cache of earlier Responses inputs. Values are encoded inputs; the clock is
 read once per call.
 */
module ResponseHistories {
  import opened Wrappers
  import opened Recency

  const MAX_INPUT_BYTES: nat := 0x20_0000

  function Weigh(e: Entry): nat {
    |e.value|
  }

  /** Entries whose time is over, on the sequence. */
  function Unexpired(s: seq<Entry>, now: int): seq<Entry> {
    if s == [] then []
    else
      var n := |s| - 1;
      if now > s[n].expires then Unexpired(s[..n], now) else Unexpired(s[..n], now) + [s[n]]
  }

  /** `put` on the recency sequence; `input` is None when it cannot be encoded. */
  function Stored(s: seq<Entry>, key: string, input: Option<string>, now: int, ttl: int, limits: Limits): seq<Entry> {
    if input.None? || |input.value| > MAX_INPUT_BYTES then s
    else
      var entry := Entry(key, input.value, now + ttl);
      var kept := Fitted(Unexpired(Without(s, key), now), Weigh(entry), limits, Weigh);
      if Fits(kept, Weigh(entry), limits, Weigh) then [entry] + kept else kept
  }

  /** `get`: the encoded input, before it is decoded. */
  function Found(s: seq<Entry>, key: string, now: int): Option<string> {
    match Find(s, key)
    case Some(entry) => if now > entry.expires then None else Some(entry.value)
    case None => None
  }

  function AfterGet(s: seq<Entry>, key: string, now: int): seq<Entry> {
    match Find(s, key)
    case Some(entry) => if now > entry.expires then Without(s, key) else [entry] + Without(s, key)
    case None => s
  }

  lemma {:induction false} UnexpiredHolds(s: seq<Entry>, now: int, e: Entry)
    ensures e in Unexpired(s, now) <==> e in s && now <= e.expires
  {
    if s != [] {
      var n := |s| - 1;
      UnexpiredHolds(s[..n], now, e);
      assert e in s <==> e in s[..n] || e == s[n] by {
        assert s == s[..n] + [s[n]];
      }
    }
  }

  lemma {:induction false} UnexpiredKeepsDistinct(s: seq<Entry>, now: int)
    requires DistinctKeys(s)
    ensures DistinctKeys(Unexpired(s, now))
  {
    if s != [] {
      var n := |s| - 1;
      var front := Unexpired(s[..n], now);
      UnexpiredKeepsDistinct(s[..n], now);
      forall j | 0 <= j < |front|
        ensures front[j].key != s[n].key
      {
        UnexpiredHolds(s[..n], now, front[j]);
        var k :| 0 <= k < n && s[..n][k] == front[j];
      }
    }
  }

  lemma UnexpiredIsFiltered(s: seq<Entry>, now: int)
    ensures forall e :: e in Unexpired(s, now) <==> e in s && now <= e.expires
    ensures DistinctKeys(s) ==> DistinctKeys(Unexpired(s, now))
  {
    hide DistinctKeys, Unexpired;
    forall e
      ensures e in Unexpired(s, now) <==> e in s && now <= e.expires
    {
      UnexpiredHolds(s, now, e);
    }
    if DistinctKeys(s) {
      UnexpiredKeepsDistinct(s, now);
    }
  }

  lemma {:induction false} UnexpiredConcat(a: seq<Entry>, b: seq<Entry>, now: int)
    ensures Unexpired(a + b, now) == Unexpired(a, now) + Unexpired(b, now)
  {
    if b == [] {
      assert a + b == a;
    } else {
      assert (a + b)[..|a + b| - 1] == a + b[..|b| - 1];
      UnexpiredConcat(a, b[..|b| - 1], now);
    }
  }

  lemma UnexpiredOfOne(e: Entry, now: int)
    ensures Unexpired([e], now) == if now > e.expires then [] else [e]
  {
    assert [e][..0] == [];
  }

  lemma NothingExpires(now: int)
    ensures Unexpired([], now) == []
  {
  }

  /** Checking one more entry towards the front. */
  lemma OneMoreChecked(s: seq<Entry>, i: nat, now: int)
    requires i < |s|
    ensures var t := s[..i + 1] + Unexpired(s[i + 1..], now);
      && t[i] == s[i]
      && s[..i] + Unexpired(s[i..], now) == if now > s[i].expires then t[..i] + t[i + 1..] else t
  {
    hide Unexpired;
    assert s[i..] == [s[i]] + s[i + 1..];
    UnexpiredConcat([s[i]], s[i + 1..], now);
    UnexpiredOfOne(s[i], now);
  }

  class ResponseHistory {
    const table: Table
    const limits: Limits
    const ttl: int

    ghost predicate Valid()
      reads this, table
    {
      table.Valid() && table.weigh == Weigh
    }

    function Contents(): seq<Entry>
      reads this, table
    {
      table.Contents()
    }

    constructor (capacity: int, maxBytes: int, ttl: int)
      ensures Valid() && Contents() == [] && fresh(table) && limits == Limits(capacity, maxBytes) && this.ttl == ttl
    {
      table := new Table(Weigh);
      limits, this.ttl := Limits(capacity, maxBytes), ttl;
    }

    /** Walks the list from the back and removes what has expired. */
    method RemoveExpired(now: int)
      requires Valid()
      modifies table
      ensures Valid() && Contents() == Unexpired(old(Contents()), now)
      ensures forall key :: key !in old(table.items) ==> key !in table.items
    {
      hide Table.Valid, Unexpired;
      ghost var start := Contents();
      var i := |table.order|;
      NothingExpires(now);
      assert start[..i] + [] == start && start[i..] == [];
      while i > 0
        invariant Valid() && i <= |start| && Contents() == start[..i] + Unexpired(start[i..], now)
        invariant forall key :: key !in old(table.items) ==> key !in table.items
      {
        i := i - 1;
        OneMoreChecked(start, i, now);
        RemoveIfExpired(i, now, start[i]);
      }
      assert start[0..] == start;
    }

    method RemoveIfExpired(i: nat, now: int, ghost entry: Entry)
      requires Valid() && i < |Contents()| && Contents()[i] == entry
      modifies table
      ensures Valid()
      ensures Contents()
        == if now > entry.expires then old(Contents())[..i] + old(Contents())[i + 1..] else old(Contents())
      ensures forall key :: key !in old(table.items) ==> key !in table.items
    {
      hide Table.Valid, Without;
      var e := table.order[i];
      if now > e.entry.expires {
        table.Remove(i, e);
      }
    }

    method Put(key: string, input: Option<string>, now: int)
      requires Valid()
      modifies table
      ensures Valid() && Contents() == Stored(old(Contents()), key, input, now, ttl, limits)
    {
      hide Table.Valid, Without, Fitted, Fits, Unexpired;
      if input.None? || |input.value| > MAX_INPUT_BYTES {
        return;
      }
      if key in table.items {
        ghost var i := table.Position(key);
        table.Remove(i, table.items[key]);
      } else {
        table.Absent(key);
      }
      RemoveExpired(now);
      var ok := table.MakeRoom(|input.value|, limits);
      if !ok {
        return;
      }
      table.PushFront(Entry(key, input.value, now + ttl));
    }

    method Get(key: string, now: int) returns (input: Option<string>)
      requires Valid()
      modifies table
      ensures Valid() && Contents() == AfterGet(old(Contents()), key, now)
      ensures input == Found(old(Contents()), key, now)
    {
      hide Table.Valid, Without;
      if key !in table.items {
        table.Absent(key);
        return None;
      }
      var element := table.items[key];
      ghost var i := table.Position(key);
      if now > element.entry.expires {
        table.Remove(i, element);
        return None;
      }
      table.MoveToFront(i, element);
      return Some(element.entry.value);
    }
  }

  // ---- One operation -------------------------------------------------------------------------

  /** An input over 2 MiB, or one that cannot be encoded, leaves an old binding in place. */
  lemma OversizedKeepsOldBinding(s: seq<Entry>, key: string, input: Option<string>, now: int, ttl: int, limits: Limits)
    requires input.None? || |input.value| > MAX_INPUT_BYTES
    ensures Found(Stored(s, key, input, now, ttl, limits), key, now) == Found(s, key, now)
  {
  }

  /** The old end is emptied without storing exactly when one entry alone does not fit. */
  lemma StoredIffFitsAlone(s: seq<Entry>, key: string, input: string, now: int, ttl: int, limits: Limits)
    requires |input| <= MAX_INPUT_BYTES
    ensures Find(Stored(s, key, Some(input), now, ttl, limits), key) == Some(Entry(key, input, now + ttl))
      <==> limits.entries > 0 && |input| <= limits.bytes
    ensures !(limits.entries > 0 && |input| <= limits.bytes) ==> Stored(s, key, Some(input), now, ttl, limits) == []
  {
    hide Without, Unexpired, Fitted, Find;
    var entry := Entry(key, input, now + ttl);
    var before := Unexpired(Without(s, key), now);
    var kept := Fitted(before, |input|, limits, Weigh);
    FittedIsPrefix(before, |input|, limits, Weigh);
    WithoutIsFiltered(s, key);
    UnexpiredIsFiltered(Without(s, key), now);
    forall e <- kept ensures e.key != key {
      InPrefix(e, kept, before);
    }
    FindsFront(entry, kept);
    FindsNothing(kept, key);
  }

  lemma {:induction false} FindsFront(entry: Entry, s: seq<Entry>)
    requires forall e <- s :: e.key != entry.key
    ensures Find([entry] + s, entry.key) == Some(entry)
  {
    var all := [entry] + s;
    if s == [] {
      assert all == [entry];
    } else {
      var n := |s| - 1;
      assert all[..|all| - 1] == [entry] + s[..n];
      assert s[n] in s;
      forall e <- s[..n] ensures e.key != entry.key {
        assert e in s;
      }
      FindsFront(entry, s[..n]);
    }
  }

  // ---- Every run -----------------------------------------------------------------------------

  datatype Op = Put(key: string, input: Option<string>, now: int) | Get(key: string, now: int)

  datatype Setup = Setup(ttl: int, limits: Limits)

  function Step(s: seq<Entry>, op: Op, setup: Setup): seq<Entry> {
    match op
    case Put(key, input, now) => Stored(s, key, input, now, setup.ttl, setup.limits)
    case Get(key, now) => AfterGet(s, key, now)
  }

  function After(ops: seq<Op>, n: nat, setup: Setup): seq<Entry>
    requires n <= |ops|
  {
    if n == 0 then [] else Step(After(ops, n - 1, setup), ops[n - 1], setup)
  }

  lemma StepStaysBounded(s: seq<Entry>, op: Op, setup: Setup)
    requires Bounded(s, setup.limits, Weigh)
    ensures Bounded(Step(s, op, setup), setup.limits, Weigh)
  {
    hide Bounded, Without, Unexpired, Fitted, Fits, Find, Weigh;
    match op
    case Put(key, input, now) =>
      if input.Some? {
        var entry := Entry(key, input.value, now + setup.ttl);
        BoundedIsDistinct(s, setup.limits, Weigh);
        WithoutIsFiltered(s, key);
        UnexpiredIsFiltered(Without(s, key), now);
        AddedIsBounded(Unexpired(Without(s, key), now), entry, setup.limits, Weigh);
      }
    case Get(key, now) =>
      CutIsBounded(s, key, setup.limits, Weigh);
      FindsNothing(s, key);
      match Find(s, key)
      case None =>
      case Some(entry) => FrontedIsBounded(s, entry, setup.limits, Weigh);
  }

  /** The limits hold after any operations at any times. */
  lemma {:induction false} RunStaysBounded(ops: seq<Op>, n: nat, setup: Setup)
    requires n <= |ops|
    ensures Bounded(After(ops, n, setup), setup.limits, Weigh)
  {
    hide Step;
    if n > 0 {
      RunStaysBounded(ops, n - 1, setup);
      StepStaysBounded(After(ops, n - 1, setup), ops[n - 1], setup);
    }
  }

  predicate Stores(op: Op, entry: Entry, setup: Setup) {
    op.Put? && op.input.Some? && |op.input.value| <= MAX_INPUT_BYTES
      && entry == Entry(op.key, op.input.value, op.now + setup.ttl)
  }

  predicate StoresKey(op: Op, key: string) {
    op.Put? && op.input.Some? && |op.input.value| <= MAX_INPUT_BYTES && op.key == key
  }

  lemma StepEntries(s: seq<Entry>, op: Op, e: Entry, setup: Setup)
    requires e in Step(s, op, setup)
    ensures Stores(op, e, setup) || (e in s && !StoresKey(op, e.key))
  {
    hide Without, Unexpired, Fitted, Fits, Find;
    match op
    case Put(key, input, now) =>
      if input.Some? && |input.value| <= MAX_INPUT_BYTES {
        var entry := Entry(key, input.value, now + setup.ttl);
        var before := Unexpired(Without(s, key), now);
        WithoutIsFiltered(s, key);
        UnexpiredIsFiltered(Without(s, key), now);
        FittedIsPrefix(before, Weigh(entry), setup.limits, Weigh);
        if e != entry {
          InPrefix(e, Fitted(before, Weigh(entry), setup.limits, Weigh), before);
        }
      }
    case Get(key, now) =>
      WithoutIsFiltered(s, key);
      FindsNothing(s, key);
  }

  lemma {:induction false} EntryWasStoredLast(ops: seq<Op>, n: nat, e: Entry, setup: Setup) returns (k: nat)
    requires n <= |ops| && e in After(ops, n, setup)
    ensures k < n && Stores(ops[k], e, setup) && forall j | k < j < n :: !StoresKey(ops[j], e.key)
  {
    hide Step, Stores, StoresKey;
    StepEntries(After(ops, n - 1, setup), ops[n - 1], e, setup);
    if Stores(ops[n - 1], e, setup) {
      k := n - 1;
    } else {
      k := EntryWasStoredLast(ops, n - 1, e, setup);
    }
  }

  /** What `get` finds is the last input put under the key that was not too large, no older than the lifetime. */
  lemma FoundIsLatest(ops: seq<Op>, n: nat, key: string, now: int, setup: Setup) returns (k: nat)
    requires n <= |ops| && Found(After(ops, n, setup), key, now).Some?
    ensures k < n && ops[k].Put? && ops[k].key == key && ops[k].input == Found(After(ops, n, setup), key, now)
    ensures now <= ops[k].now + setup.ttl && forall j | k < j < n :: !StoresKey(ops[j], key)
  {
    hide After, Find;
    FindsNothing(After(ops, n, setup), key);
    k := EntryWasStoredLast(ops, n, Find(After(ops, n, setup), key).value, setup);
  }

  // ---- How long an input stays ----------------------------------------------------------------

  /**
   An operation leaves the entry where `get` finds it: nothing else is put under its key, it is
   not asked for too late, and a new entry comes in time and has room beside those used since.
   */
  predicate Spares(s: seq<Entry>, op: Op, e: Entry, setup: Setup) {
    match op
    case Put(key, input, now) =>
      input.Some? && |input.value| <= MAX_INPUT_BYTES ==>
        var entry := Entry(key, input.value, now + setup.ttl);
        if key == e.key then entry == e && Fits([], Weigh(entry), setup.limits, Weigh)
        else now <= e.expires && Fits(UpTo(Unexpired(Without(s, key), now), e), Weigh(entry), setup.limits, Weigh)
    case Get(key, now) => key == e.key ==> now <= e.expires
  }

  /** What remains of the others when an entry is put, and whether it is put in front of them. */
  lemma PutKeepsIff(s: seq<Entry>, key: string, input: string, now: int, e: Entry, setup: Setup)
    requires DistinctKeys(s) && |input| <= MAX_INPUT_BYTES && e in s && e.key != key
    ensures e in Stored(s, key, Some(input), now, setup.ttl, setup.limits) <==>
      && now <= e.expires
      && Fits(UpTo(Unexpired(Without(s, key), now), e), Weigh(Entry(key, input, now + setup.ttl)), setup.limits, Weigh)
  {
    hide DistinctKeys, Without, Unexpired, Fitted, Fits, UpTo, Weigh;
    var entry, before := Entry(key, input, now + setup.ttl), Unexpired(Without(s, key), now);
    WithoutIsFiltered(s, key);
    UnexpiredIsFiltered(Without(s, key), now);
    FittedIsPrefix(before, Weigh(entry), setup.limits, Weigh);
    if e in before {
      FittedKeepsIff(before, e, Weigh(entry), setup.limits, Weigh);
    } else if e in Fitted(before, Weigh(entry), setup.limits, Weigh) {
      InPrefix(e, Fitted(before, Weigh(entry), setup.limits, Weigh), before);
    }
  }

  lemma PutReplaces(s: seq<Entry>, input: string, now: int, e: Entry, setup: Setup)
    requires |input| <= MAX_INPUT_BYTES
    ensures var entry := Entry(e.key, input, now + setup.ttl);
      e in Stored(s, e.key, Some(input), now, setup.ttl, setup.limits) <==>
        entry == e && Fits([], Weigh(entry), setup.limits, Weigh)
  {
    hide Without, Unexpired, Fitted, Find;
    var after := Stored(s, e.key, Some(input), now, setup.ttl, setup.limits);
    StoredIffFitsAlone(s, e.key, input, now, setup.ttl, setup.limits);
    FindsNothing(after, e.key);
    if e in after {
      PutLeavesOne(s, input, now, e, setup);
    }
  }

  lemma PutLeavesOne(s: seq<Entry>, input: string, now: int, e: Entry, setup: Setup)
    requires |input| <= MAX_INPUT_BYTES && e in Stored(s, e.key, Some(input), now, setup.ttl, setup.limits)
    ensures e == Entry(e.key, input, now + setup.ttl)
  {
    hide Without, Unexpired, Fitted, Fits, Weigh;
    var entry, before := Entry(e.key, input, now + setup.ttl), Unexpired(Without(s, e.key), now);
    var kept := Fitted(before, Weigh(entry), setup.limits, Weigh);
    WithoutIsFiltered(s, e.key);
    UnexpiredIsFiltered(Without(s, e.key), now);
    FittedIsPrefix(before, Weigh(entry), setup.limits, Weigh);
    if e in kept {
      InPrefix(e, kept, before);
    }
  }

  /** Exactly that decides whether an entry stays. */
  lemma EntryStaysIff(s: seq<Entry>, op: Op, e: Entry, setup: Setup)
    requires DistinctKeys(s) && e in s
    ensures e in Step(s, op, setup) <==> Spares(s, op, e, setup)
  {
    hide DistinctKeys, Without, Unexpired, Fits, Find, UpTo, Weigh, Stored;
    match op
    case Put(key, input, now) =>
      if input.Some? && |input.value| <= MAX_INPUT_BYTES {
        if key == e.key {
          PutReplaces(s, input.value, now, e, setup);
        } else {
          PutKeepsIff(s, key, input.value, now, e, setup);
        }
      } else {
        RefusedPutKeepsAll(s, key, input, now, setup);
      }
    case Get(key, now) =>
      WithoutIsFiltered(s, key);
      FindsNothing(s, key);
      FindsTheEntry(s, e);
  }

  lemma RefusedPutKeepsAll(s: seq<Entry>, key: string, input: Option<string>, now: int, setup: Setup)
    requires input.None? || |input.value| > MAX_INPUT_BYTES
    ensures Stored(s, key, input, now, setup.ttl, setup.limits) == s
  {
  }

  /**
   Over a run: an entry that was put is still there exactly when it fitted and every operation since
   has spared it.
   */
  lemma {:induction false} EntryStaysIffSpared(ops: seq<Op>, k: nat, n: nat, e: Entry, setup: Setup)
    requires k < n <= |ops| && Stores(ops[k], e, setup) && forall j | k < j < n :: !StoresKey(ops[j], e.key)
    ensures e in After(ops, n, setup) <==>
      Fits([], Weigh(e), setup.limits, Weigh) && forall j | k < j < n :: Spares(After(ops, j, setup), ops[j], e, setup)
  {
    hide Bounded, Step, Spares, Stores, StoresKey, Fits, Weigh;
    if n - 1 == k {
      StoredIffFits(After(ops, k, setup), ops[k], e, setup);
    } else {
      var s, op := After(ops, n - 1, setup), ops[n - 1];
      EntryStaysIffSpared(ops, k, n - 1, e, setup);
      if e in s {
        RunStaysBounded(ops, n - 1, setup);
        BoundedIsDistinct(s, setup.limits, Weigh);
        EntryStaysIff(s, op, e, setup);
      } else if e in Step(s, op, setup) {
        StepEntries(s, op, e, setup);
        StoresUnderItsKey(op, e, setup);
      }
    }
  }

  lemma StoredIffFits(s: seq<Entry>, op: Op, e: Entry, setup: Setup)
    requires Stores(op, e, setup)
    ensures e in Step(s, op, setup) <==> Fits([], Weigh(e), setup.limits, Weigh)
  {
    hide Stored;
    PutReplaces(s, op.input.value, op.now, e, setup);
  }

  lemma StoresUnderItsKey(op: Op, e: Entry, setup: Setup)
    requires Stores(op, e, setup)
    ensures StoresKey(op, e.key)
  {
  }

  /**
   Get meets put: with no other input stored under the key since, an input is found within its
   lifetime exactly when it fits an empty history and every operation since has spared its entry.
   */
  lemma FoundAfterPut(ops: seq<Op>, k: nat, n: nat, now: int, setup: Setup)
    requires k < n <= |ops| && StoresKey(ops[k], ops[k].key)
    requires forall j | k < j < n :: !StoresKey(ops[j], ops[k].key)
    requires now <= ops[k].now + setup.ttl
    ensures var e := Entry(ops[k].key, ops[k].input.value, ops[k].now + setup.ttl);
      Found(After(ops, n, setup), e.key, now) == Some(e.value) <==>
        Fits([], |e.value|, setup.limits, Weigh) && forall j | k < j < n ::
          Spares(After(ops, j, setup), ops[j], e, setup)
  {
    hide Bounded, Find, Fits, After, Spares;
    var e := Entry(ops[k].key, ops[k].input.value, ops[k].now + setup.ttl);
    EntryStaysIffSpared(ops, k, n, e, setup);
    RunStaysBounded(ops, n, setup);
    BoundedIsDistinct(After(ops, n, setup), setup.limits, Weigh);
    FindsTheEntry(After(ops, n, setup), e);
    FindsNothing(After(ops, n, setup), e.key);
    if Find(After(ops, n, setup), e.key).Some? {
      var last := EntryWasStoredLast(ops, n, Find(After(ops, n, setup), e.key).value, setup);
      assert StoresKey(ops[last], e.key);
    }
  }
}
