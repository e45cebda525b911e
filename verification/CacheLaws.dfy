/** What storing and asking mean for the two caches, with their limits in figures. */
module CacheLaws {
  import opened Wrappers
  import opened Text
  import opened Recency
  import S = SignatureCaches
  import H = ResponseHistories

  // ---- Model families ---------------------------------------------------------------------

  predicate OccursAt(part: string, s: string, i: nat) {
    i + |part| <= |s| && s[i..i + |part|] == part
  }

  ghost predicate Occurs(part: string, s: string) {
    exists i: nat :: OccursAt(part, s, i)
  }

  lemma {:induction false} OccursIff(s: string, part: string)
    requires part != ""
    ensures S.Contains(s, part) <==> Occurs(part, s)
  {
    assert part <= s <==> OccursAt(part, s, 0);
    if s != "" {
      OccursIff(s[1..], part);
      forall i: nat
        ensures OccursAt(part, s[1..], i) <==> OccursAt(part, s, i + 1)
      {
        if i + 1 + |part| <= |s| {
          assert s[1..][i..i + |part|] == s[i + 1..i + 1 + |part|];
        }
      }
      if Occurs(part, s) {
        var i: nat :| OccursAt(part, s, i);
        assert i > 0 ==> OccursAt(part, s[1..], i - 1);
      }
    }
  }

  /** Models that name Claude or Gemini anywhere, in any case, share a family; any other is its own. */
  lemma FamilyMeans(model: string)
    ensures var name := ToLower(model);
      S.Family(model)
        == if Occurs("claude", name) then "claude" else if Occurs("gemini", name) then "gemini" else name
  {
    OccursIff(ToLower(model), "claude");
    OccursIff(ToLower(model), "gemini");
  }

  // ---- Signatures --------------------------------------------------------------------------

  /** What the cache takes at all. */
  predicate Keepable(model: string, id: string, signature: string) {
    && 1 <= |id| <= 4096 && |model| <= 512
    && 1 <= |signature| <= 256 * 1024 && signature != "skip_thought_signature_validator"
  }

  /**
   A signature that the cache takes is recalled at once and for an hour, by any model of the same family,
   whatever the cache held; one that it does not take changes nothing.
   */
  lemma RememberedIsRecalled(s: seq<Entry>, model: string, id: string, signature: string, now: int, other: string,
                             later: int)
    requires S.Family(other) == S.Family(model) && |other| <= 512
    ensures var t := S.Remembered(s, model, id, signature, now);
      if Keepable(model, id, signature) then
        S.Recalled(t, other, id, later) == if later < now + 60 * 60 then signature else ""
      else t == s
  {
    hide S.Family, Without, Fitted;
    if Keepable(model, id, signature) {
      var entry := Entry(S.Key(model, id), signature, now + 3600);
      var rest := Fitted(Without(s, entry.key), S.Weigh(entry), S.LIMITS, S.Weigh);
      WithoutIsFiltered(s, entry.key);
      FittedIsPrefix(Without(s, entry.key), S.Weigh(entry), S.LIMITS, S.Weigh);
      FoundInFront(entry, rest, Without(s, entry.key));
    }
  }

  lemma FoundInFront(entry: Entry, rest: seq<Entry>, others: seq<Entry>)
    requires rest <= others && forall e <- others :: e.key != entry.key
    ensures Find([entry] + rest, entry.key) == Some(entry)
  {
    hide Find;
    assert forall e <- rest :: e in others;
    FindsFront(entry, rest);
  }

  lemma {:induction false} FindsFront(entry: Entry, rest: seq<Entry>)
    requires forall e <- rest :: e.key != entry.key
    ensures Find([entry] + rest, entry.key) == Some(entry)
  {
    var all := [entry] + rest;
    if rest == [] {
      assert all == [entry];
    } else {
      var n := |rest| - 1;
      assert all[..|all| - 1] == [entry] + rest[..n] && all[|all| - 1] == rest[n];
      assert rest[n] in rest && forall e <- rest[..n] :: e in rest;
      FindsFront(entry, rest[..n]);
    }
  }

  lemma {:induction false} FindsSame(s: seq<Entry>, t: seq<Entry>, key: string)
    requires DistinctKeys(s) && DistinctKeys(t)
    requires forall e: Entry | e.key == key :: e in s <==> e in t
    ensures Find(s, key) == Find(t, key)
  {
    FindsNothing(s, key);
    FindsNothing(t, key);
    match Find(s, key)
    case Some(e) => FindsTheEntry(t, e);
    case None =>
  }

  /** Asking takes no answer away: whatever would have been answered later is still answered. */
  lemma RecallingKeepsAnswers(s: seq<Entry>, model: string, id: string, now: int, other: string, at: string, later: int)
    requires DistinctKeys(s) && now <= later
    ensures S.Recalled(S.AfterRecall(s, model, id, now), other, at, later) == S.Recalled(s, other, at, later)
  {
    hide S.Key, Without, Find;
    var key, t := S.Key(model, id), S.AfterRecall(s, model, id, now);
    WithoutIsFiltered(s, key);
    FindsNothing(s, key);
    FindsNothing(s, S.Key(other, at));
    if t != s {
      var entry := Find(s, key).value;
      FrontIsDistinct(entry, Without(s, key));
      FindsNothing(t, S.Key(other, at));
      if S.Key(other, at) != key || now < entry.expires {
        FindsSame(s, t, S.Key(other, at));
      } else {
        assert forall e <- t :: e.key != key;
      }
    }
  }

  lemma FrontIsDistinct(entry: Entry, rest: seq<Entry>)
    requires DistinctKeys(rest) && forall e <- rest :: e.key != entry.key
    ensures DistinctKeys([entry] + rest)
  {
  }

  /** The bytes of some entries, keys included. */
  function Bytes(s: seq<Entry>): nat {
    if s == [] then 0 else Bytes(s[..|s| - 1]) + |s[|s| - 1].key| + |s[|s| - 1].value|
  }

  lemma {:induction false} BytesAreTotal(s: seq<Entry>)
    ensures Total(s, S.Weigh) == Bytes(s)
  {
    if s != [] {
      BytesAreTotal(s[..|s| - 1]);
    }
  }

  /** After any operations at any times: at most 4096 signatures, with their keys in 16 MiB. */
  lemma SignaturesStayFew(ops: seq<S.Op>, n: nat)
    requires n <= |ops|
    ensures |S.After(ops, n)| <= 4096 && Bytes(S.After(ops, n)) <= 16 * 1024 * 1024
  {
    hide S.After;
    S.RunStaysBounded(ops, n);
    BytesAreTotal(S.After(ops, n));
  }

  // ---- Responses ---------------------------------------------------------------------------

  /**
   An input of at most 2 MiB that fits an empty history is found at once and up to the end of its
   lifetime, whatever the history held; one that is too large or cannot be encoded changes nothing.
   */
  lemma PutIsFound(s: seq<Entry>, key: string, input: Option<string>, now: int, ttl: int, limits: Limits, later: int)
    ensures var t := H.Stored(s, key, input, now, ttl, limits);
      if input.None? || |input.value| > 2 * 1024 * 1024 then t == s
      else
        H.Found(t, key, later)
          == if 1 <= limits.entries && |input.value| <= limits.bytes && later <= now + ttl then input else None
  {
    hide Without, H.Unexpired, Fitted, Fits, H.Stored;
    if input.Some? && |input.value| <= 2 * 1024 * 1024 {
      H.StoredIffFitsAlone(s, key, input.value, now, ttl, limits);
    } else {
      NothingIsStored(s, key, input, now, ttl, limits);
    }
  }

  lemma NothingIsStored(s: seq<Entry>, key: string, input: Option<string>, now: int, ttl: int, limits: Limits)
    requires input.None? || |input.value| > 2 * 1024 * 1024
    ensures H.Stored(s, key, input, now, ttl, limits) == s
  {
  }

  lemma GettingKeepsAnswers(s: seq<Entry>, key: string, now: int, other: string, later: int)
    requires DistinctKeys(s) && now <= later
    ensures H.Found(H.AfterGet(s, key, now), other, later) == H.Found(s, other, later)
  {
    hide Without, Find;
    var t := H.AfterGet(s, key, now);
    WithoutIsFiltered(s, key);
    FindsNothing(s, key);
    FindsNothing(s, other);
    if t != s {
      var entry := Find(s, key).value;
      FrontIsDistinct(entry, Without(s, key));
      FindsNothing(t, other);
      if other != key || now <= entry.expires {
        FindsSame(s, t, other);
      } else {
        assert forall e <- t :: e.key != key;
      }
    }
  }

  function InputBytes(s: seq<Entry>): nat {
    if s == [] then 0 else InputBytes(s[..|s| - 1]) + |s[|s| - 1].value|
  }

  lemma {:induction false} InputBytesAreTotal(s: seq<Entry>)
    ensures Total(s, H.Weigh) == InputBytes(s)
  {
    if s != [] {
      InputBytesAreTotal(s[..|s| - 1]);
    }
  }

  /** After any operations at any times the history holds no more inputs and bytes than it was set up for. */
  lemma ResponsesStayFew(ops: seq<H.Op>, n: nat, setup: H.Setup)
    requires n <= |ops| && H.After(ops, n, setup) != []
    ensures var s := H.After(ops, n, setup); |s| <= setup.limits.entries && InputBytes(s) <= setup.limits.bytes
  {
    hide H.After;
    H.RunStaysBounded(ops, n, setup);
    InputBytesAreTotal(H.After(ops, n, setup));
  }
}
