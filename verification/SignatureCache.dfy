/** The cache of tool-call signatures. Times are in seconds. */
module SignatureCaches {
  import opened Wrappers
  import opened Text
  import opened Recency

  const MAX_SIGNATURE_BYTES: nat := 0x4_0000
  const LIMITS: Limits := Limits(4096, 0x100_0000)
  const LIFETIME: int := 3600
  const MAX_ID: nat := 4096
  const MAX_MODEL: nat := 512

  predicate Contains(s: string, part: string) {
    part <= s || (s != "" && Contains(s[1..], part))
  }

  function Family(model: string): string {
    var name := ToLower(model);
    if Contains(name, "claude") then "claude" else if Contains(name, "gemini") then "gemini" else name
  }

  const NUL: string := "\U{0}"

  /** `signatureCacheKey`. */
  function Key(model: string, id: string): string {
    Family(model) + NUL + id
  }

  function Weigh(e: Entry): nat {
    |e.key| + |e.value|
  }

  predicate Named(model: string, id: string) {
    id != "" && |id| <= MAX_ID && |model| <= MAX_MODEL
  }

  predicate Kept(model: string, id: string, signature: string) {
    && Named(model, id)
    && signature != "" && signature != "skip_thought_signature_validator" && |signature| <= MAX_SIGNATURE_BYTES
  }

  /** `RememberToolSignature` on the recency sequence. */
  function Remembered(s: seq<Entry>, model: string, id: string, signature: string, now: int): seq<Entry> {
    if !Kept(model, id, signature) then s
    else
      var entry := Entry(Key(model, id), signature, now + LIFETIME);
      [entry] + Fitted(Without(s, entry.key), Weigh(entry), LIMITS, Weigh)
  }

  /** What `RecallToolSignature` answers, "" for nothing. */
  function Recalled(s: seq<Entry>, model: string, id: string, now: int): string {
    match (if Named(model, id) then Find(s, Key(model, id)) else None)
    case Some(entry) => if now < entry.expires then entry.value else ""
    case None => ""
  }

  function AfterRecall(s: seq<Entry>, model: string, id: string, now: int): seq<Entry> {
    match (if Named(model, id) then Find(s, Key(model, id)) else None)
    case Some(entry) => if now < entry.expires then [entry] + Without(s, entry.key) else Without(s, entry.key)
    case None => s
  }

  // ---- Room is always found ----------------------------------------------------------------

  lemma FamilyIsShort(model: string)
    requires |model| <= MAX_MODEL
    ensures |Family(model)| <= MAX_MODEL
  {
  }

  /** An entry that is kept fits into an empty cache: eviction never runs out of entries. */
  lemma KeptFitsAlone(model: string, id: string, signature: string, now: int)
    requires Kept(model, id, signature)
    ensures Fits([], Weigh(Entry(Key(model, id), signature, now + LIFETIME)), LIMITS, Weigh)
  {
    FamilyIsShort(model);
  }

  lemma RoomIsFound(s: seq<Entry>, model: string, id: string, signature: string, now: int)
    requires Kept(model, id, signature)
    ensures var size := Weigh(Entry(Key(model, id), signature, now + LIFETIME));
      Fits(Fitted(s, size, LIMITS, Weigh), size, LIMITS, Weigh)
  {
    hide Family;
    KeptFitsAlone(model, id, signature, now);
    FittedIsPrefix(s, Weigh(Entry(Key(model, id), signature, now + LIFETIME)), LIMITS, Weigh);
  }

  class SignatureCache {
    const table: Table

    ghost predicate Valid()
      reads this, table
    {
      table.Valid() && table.weigh == Weigh
    }

    function Contents(): seq<Entry>
      reads this, table
    {
      table.Contents()
    }

    constructor ()
      ensures Valid() && Contents() == [] && fresh(table)
    {
      table := new Table(Weigh);
    }

    method Remember(model: string, id: string, signature: string, now: int)
      requires Valid()
      modifies table
      ensures Valid() && Contents() == Remembered(old(Contents()), model, id, signature, now)
    {
      hide Family, Table.Valid, Without, Fitted, Fits;
      if !Kept(model, id, signature) {
        return;
      }
      var key := Key(model, id);
      var size := |key| + |signature|;
      RoomIsFound(Without(table.Contents(), key), model, id, signature, now);
      if key in table.items {
        ghost var i := table.Position(key);
        table.Remove(i, table.items[key]);
      } else {
        table.Absent(key);
      }
      var ok := table.MakeRoom(size, LIMITS);
      if !ok {
        // The exit on an empty list.
        assert false;
      }
      table.PushFront(Entry(key, signature, now + LIFETIME));
    }

    method Recall(model: string, id: string, now: int) returns (signature: string)
      requires Valid()
      modifies table
      ensures Valid() && Contents() == AfterRecall(old(Contents()), model, id, now)
      ensures signature == Recalled(old(Contents()), model, id, now)
    {
      hide Family, Table.Valid, Without, Fitted, Fits;
      if !Named(model, id) {
        return "";
      }
      var key := Key(model, id);
      if key !in table.items {
        table.Absent(key);
        return "";
      }
      var element := table.items[key];
      ghost var i := table.Position(key);
      if element.entry.expires <= now {
        table.Remove(i, element);
        return "";
      }
      table.MoveToFront(i, element);
      return element.entry.value;
    }
  }

  // ---- Every run -----------------------------------------------------------------------------

  datatype Op =
    | Remember(model: string, id: string, signature: string, now: int)
    | Recall(model: string, id: string, now: int)

  function Step(s: seq<Entry>, op: Op): seq<Entry> {
    match op
    case Remember(model, id, signature, now) => Remembered(s, model, id, signature, now)
    case Recall(model, id, now) => AfterRecall(s, model, id, now)
  }

  function After(ops: seq<Op>, n: nat): seq<Entry>
    requires n <= |ops|
  {
    if n == 0 then [] else Step(After(ops, n - 1), ops[n - 1])
  }

  lemma StepStaysBounded(s: seq<Entry>, op: Op)
    requires Bounded(s, LIMITS, Weigh)
    ensures Bounded(Step(s, op), LIMITS, Weigh)
  {
    hide Bounded, Without, Fitted, Fits, Find, Key, Weigh;
    match op
    case Remember(model, id, signature, now) =>
      if Kept(model, id, signature) {
        var entry := Entry(Key(model, id), signature, now + LIFETIME);
        BoundedIsDistinct(s, LIMITS, Weigh);
        WithoutIsFiltered(s, entry.key);
        RoomIsFound(Without(s, entry.key), model, id, signature, now);
        AddedIsBounded(Without(s, entry.key), entry, LIMITS, Weigh);
      }
    case Recall(model, id, now) =>
      if Named(model, id) {
        CutIsBounded(s, Key(model, id), LIMITS, Weigh);
        FindsNothing(s, Key(model, id));
        match Find(s, Key(model, id))
        case None =>
        case Some(entry) => FrontedIsBounded(s, entry, LIMITS, Weigh);
      }
  }

  /** At most 4096 entries and 16 MiB, each key once, after any operations at any times. */
  lemma {:induction false} RunStaysBounded(ops: seq<Op>, n: nat)
    requires n <= |ops|
    ensures Bounded(After(ops, n), LIMITS, Weigh)
  {
    hide Step;
    if n > 0 {
      RunStaysBounded(ops, n - 1);
      StepStaysBounded(After(ops, n - 1), ops[n - 1]);
    }
  }

  /** Operation k stored this entry. */
  predicate Stores(op: Op, entry: Entry) {
    op.Remember? && Kept(op.model, op.id, op.signature)
      && entry == Entry(Key(op.model, op.id), op.signature, op.now + LIFETIME)
  }

  predicate StoresKey(op: Op, key: string) {
    op.Remember? && Kept(op.model, op.id, op.signature) && Key(op.model, op.id) == key
  }

  /** What one step leaves behind was there before, or was stored by it; it replaces what it stores over. */
  lemma StepEntries(s: seq<Entry>, op: Op, e: Entry)
    requires e in Step(s, op)
    ensures Stores(op, e) || (e in s && !StoresKey(op, e.key))
  {
    hide Without, Fitted, Fits, Find, Key;
    match op
    case Remember(model, id, signature, now) =>
      if Kept(model, id, signature) {
        var entry := Entry(Key(model, id), signature, now + LIFETIME);
        WithoutIsFiltered(s, entry.key);
        FittedIsPrefix(Without(s, entry.key), Weigh(entry), LIMITS, Weigh);
        if e != entry {
          InPrefix(e, Fitted(Without(s, entry.key), Weigh(entry), LIMITS, Weigh), Without(s, entry.key));
        }
      }
    case Recall(model, id, now) =>
      if Named(model, id) {
        WithoutIsFiltered(s, Key(model, id));
        FindsNothing(s, Key(model, id));
      }
  }

  /** Every entry is the one stored last under its key. */
  lemma {:induction false} EntryWasStoredLast(ops: seq<Op>, n: nat, e: Entry) returns (k: nat)
    requires n <= |ops| && e in After(ops, n)
    ensures k < n && Stores(ops[k], e) && forall j | k < j < n :: !StoresKey(ops[j], e.key)
  {
    hide Step, Stores, StoresKey;
    StepEntries(After(ops, n - 1), ops[n - 1], e);
    if Stores(ops[n - 1], e) {
      k := n - 1;
    } else {
      k := EntryWasStoredLast(ops, n - 1, e);
    }
  }

  /**
   A recalled signature is the one remembered last for the same key, less than an hour ago.
   */
  lemma RecallIsLatest(ops: seq<Op>, n: nat, model: string, id: string, now: int) returns (k: nat)
    requires n <= |ops| && Recalled(After(ops, n), model, id, now) != ""
    ensures k < n && ops[k].Remember? && Key(ops[k].model, ops[k].id) == Key(model, id)
    ensures ops[k].signature == Recalled(After(ops, n), model, id, now) && now < ops[k].now + LIFETIME
    ensures forall j | k < j < n :: !StoresKey(ops[j], Key(model, id))
  {
    hide Key, After, Find;
    FindsNothing(After(ops, n), Key(model, id));
    k := EntryWasStoredLast(ops, n, Find(After(ops, n), Key(model, id)).value);
  }

  // ---- How long an entry stays ------------------------------------------------------------------

  /**
   An operation leaves the entry where a recall finds it: nothing else is stored under its key,
   it is not asked for too late, and a new entry has room beside those used since.
   */
  predicate Spares(s: seq<Entry>, op: Op, e: Entry) {
    match op
    case Remember(model, id, signature, now) =>
      Kept(model, id, signature) ==>
        var entry := Entry(Key(model, id), signature, now + LIFETIME);
        if entry.key == e.key then entry == e else Fits(UpTo(Without(s, entry.key), e), Weigh(entry), LIMITS, Weigh)
    case Recall(model, id, now) => Named(model, id) && Key(model, id) == e.key ==> now < e.expires
  }

  /** Least recently used goes first: exactly that decides whether an entry stays. */
  lemma EntryStaysIff(s: seq<Entry>, op: Op, e: Entry)
    requires DistinctKeys(s) && e in s
    ensures e in Step(s, op) <==> Spares(s, op, e)
  {
    hide DistinctKeys, Without, Fitted, Fits, Find, Key, UpTo, Weigh;
    match op
    case Remember(model, id, signature, now) =>
      if Kept(model, id, signature) {
        var entry := Entry(Key(model, id), signature, now + LIFETIME);
        WithoutIsFiltered(s, entry.key);
        FittedIsPrefix(Without(s, entry.key), Weigh(entry), LIMITS, Weigh);
        if entry.key == e.key {
          if e in Fitted(Without(s, entry.key), Weigh(entry), LIMITS, Weigh) {
            InPrefix(e, Fitted(Without(s, entry.key), Weigh(entry), LIMITS, Weigh), Without(s, entry.key));
          }
        } else {
          FittedKeepsIff(Without(s, entry.key), e, Weigh(entry), LIMITS, Weigh);
        }
      }
    case Recall(model, id, now) =>
      if Named(model, id) {
        WithoutIsFiltered(s, Key(model, id));
        FindsNothing(s, Key(model, id));
        FindsTheEntry(s, e);
      }
  }

  /** Over a run: an entry is still there exactly when every operation since has spared it. */
  lemma {:induction false} EntryStaysIffSpared(ops: seq<Op>, k: nat, n: nat, e: Entry)
    requires k < n <= |ops| && Stores(ops[k], e) && forall j | k < j < n :: !StoresKey(ops[j], e.key)
    ensures e in After(ops, n) <==> forall j | k < j < n :: Spares(After(ops, j), ops[j], e)
  {
    hide Bounded, Step, Spares, Stores, StoresKey;
    if n - 1 == k {
      StoredIsThere(After(ops, k), ops[k], e);
    } else {
      var s, op := After(ops, n - 1), ops[n - 1];
      EntryStaysIffSpared(ops, k, n - 1, e);
      if e in s {
        RunStaysBounded(ops, n - 1);
        BoundedIsDistinct(s, LIMITS, Weigh);
        EntryStaysIff(s, op, e);
      } else if e in Step(s, op) {
        StepEntries(s, op, e);
        StoresUnderItsKey(op, e);
      }
    }
  }

  lemma StoredIsThere(s: seq<Entry>, op: Op, e: Entry)
    requires Stores(op, e)
    ensures e in Step(s, op)
  {
  }

  lemma StoresUnderItsKey(op: Op, e: Entry)
    requires Stores(op, e)
    ensures StoresKey(op, e.key)
  {
  }

  /**
   Recall meets remember: with nothing stored under the key since, the signature is recalled
   within its hour exactly when every operation since has spared its entry.
   */
  lemma RecallAfterRemember(ops: seq<Op>, k: nat, n: nat, now: int)
    requires k < n <= |ops| && ops[k].Remember? && Kept(ops[k].model, ops[k].id, ops[k].signature)
    requires forall j | k < j < n :: !StoresKey(ops[j], Key(ops[k].model, ops[k].id))
    requires now < ops[k].now + LIFETIME
    ensures var e := Entry(Key(ops[k].model, ops[k].id), ops[k].signature, ops[k].now + LIFETIME);
      Recalled(After(ops, n), ops[k].model, ops[k].id, now) == ops[k].signature <==>
      forall j | k < j < n :: Spares(After(ops, j), ops[j], e)
  {
    hide Bounded, Key, Without, Find, Fitted, After, Spares;
    var e := Entry(Key(ops[k].model, ops[k].id), ops[k].signature, ops[k].now + LIFETIME);
    EntryStaysIffSpared(ops, k, n, e);
    RunStaysBounded(ops, n);
    BoundedIsDistinct(After(ops, n), LIMITS, Weigh);
    FindsTheEntry(After(ops, n), e);
    FindsNothing(After(ops, n), e.key);
    if Find(After(ops, n), e.key).Some? {
      var found := Find(After(ops, n), e.key).value;
      var last := EntryWasStoredLast(ops, n, found);
      assert StoresKey(ops[last], e.key) && StoresKey(ops[k], e.key);
    }
  }

  // ---- Families -------------------------------------------------------------------------------

  /**
   A key of the claude or the gemini family tells its family and its identifier, whatever the other
   model is called.
   */
  lemma KeyTellsFamily(m: string, i: string, n: string, j: string)
    requires Family(n) in {"claude", "gemini"} && Key(m, i) == Key(n, j)
    ensures Family(m) == Family(n) && i == j
  {
    var a, b, whole := Family(m), Family(n), Key(m, i);
    assert forall k | 0 <= k < |a| :: whole[k] == a[k];
    assert forall k | 0 <= k < 6 :: whole[k] == b[k] != '\U{0}';
    assert whole[|a|] == '\U{0}';
    assert b == a[..6];
    if a !in {"claude", "gemini"} {
      assert Contains(a, b);
    }
    assert i == whole[7..] && j == whole[7..];
  }

  /** No signature crosses between the claude and the gemini models, or into them from any other. */
  lemma RecalledWithinFamily(ops: seq<Op>, n: nat, model: string, id: string, now: int) returns (k: nat)
    requires n <= |ops| && Family(model) in {"claude", "gemini"} && Recalled(After(ops, n), model, id, now) != ""
    ensures k < n && ops[k].Remember? && Family(ops[k].model) == Family(model) && ops[k].id == id
    ensures ops[k].signature == Recalled(After(ops, n), model, id, now)
  {
    hide Family, Key, After;
    k := RecallIsLatest(ops, n, model, id, now);
    KeyTellsFamily(ops[k].model, ops[k].id, model, id);
  }

  lemma PrefixesCompare(a: string, b: string, x: string, y: string)
    requires a + x == b + y
    ensures a <= b || b <= a
  {
    if |a| <= |b| {
      assert a == (a + x)[..|a|] == (b + y)[..|a|] == b[..|a|];
    } else {
      assert b == (b + y)[..|b|] == (a + x)[..|b|] == a[..|b|];
    }
  }

  /** Two families share keys exactly when they are equal, or one goes on with a NUL after the other. */
  lemma FamiliesShareKeysIff(m: string, n: string)
    ensures (exists i: string, j: string :: Key(m, i) == Key(n, j)) <==>
      Family(m) + NUL <= Family(n) + NUL || Family(n) + NUL <= Family(m) + NUL
  {
    hide Family;
    var a, b := Family(m) + NUL, Family(n) + NUL;
    if i, j :| Key(m, i) == Key(n, j) {
      PrefixesCompare(a, b, i, j);
    }
    if a <= b {
      assert b == a + b[|a|..];
      assert Key(m, b[|a|..]) == Key(n, "");
    } else if b <= a {
      assert a == b + a[|b|..];
      assert Key(n, a[|b|..]) == Key(m, "");
    }
  }

  /** For models without a NUL in their names, equal keys mean equal families and equal identifiers. */
  lemma KeyIsInjective(m: string, i: string, n: string, j: string)
    requires '\U{0}' !in Family(m) && '\U{0}' !in Family(n) && Key(m, i) == Key(n, j)
    ensures Family(m) == Family(n) && i == j
  {
    hide Family;
    var a, b := Family(m), Family(n);
    var whole := Key(m, i);
    assert forall k | 0 <= k < |a| :: whole[k] == a[k];
    assert forall k | 0 <= k < |b| :: whole[k] == b[k];
    assert whole[|a|] == '\U{0}' && whole[|b|] == '\U{0}';
    assert |a| == |b|;
    assert a == whole[..|a|] == b;
    assert i == whole[|a| + 1..] && j == whole[|b| + 1..];
  }

  lemma KeysCanCollide()
    ensures Key("a\U{0}b", "c") == Key("a", "b\U{0}c")
  {
    assert ToLower("a\U{0}b") == "a\U{0}b" && ToLower("a") == "a";
    NoFamily("a\U{0}b");
    NoFamily("a");
  }

  lemma {:induction false} NoFamily(s: string)
    requires |s| < 6
    ensures !Contains(s, "claude") && !Contains(s, "gemini")
  {
    if s != "" {
      NoFamily(s[1..]);
    }
  }
}
