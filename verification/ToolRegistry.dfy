/**
 The registry that gives streamed tool calls their identity.

 Digests are content: two calls have the same digest exactly when their names and arguments
 are equal. `mint(n)` is the random identifier drawn for the call accepted as number n.
 */
module ToolRegistries {
  import opened Text
  import opened Gemini

  const MAX_TOOL_CALLS: nat := 4096
  const MAX_ID_LENGTH: nat := 512

  datatype Identity = Identity(name: string, args: string, id: string)

  datatype Registry = Registry(seen: map<string, Identity>, usedIds: set<string>, count: nat)

  datatype Request = Request(index: int, call: FunctionCall)

  datatype Outcome = Accepted(id: string) | Repeated(id: string) | Rejected

  function Empty(): Registry {
    Registry(map[], {}, 0)
  }

  /** `%d:%s` */
  function Key(index: int, id: string): string {
    (if index < 0 then "-" + Decimal(-index) else Decimal(index)) + ":" + id
  }

  predicate WellNamed(call: FunctionCall) {
    TrimSpace(call.name) != "" && |call.UpstreamId()| <= MAX_ID_LENGTH
  }

  predicate SameContent(identity: Identity, call: FunctionCall) {
    identity.name == call.name && identity.args == call.args
  }

  /** The identifier generated for the call accepted as number n. */
  function Minted(mint: nat -> string, n: nat): string {
    "call_" + mint(n)
  }

  function Chosen(r: Registry, call: FunctionCall, mint: nat -> string): string {
    if call.UpstreamId() == "" || call.UpstreamId() in r.usedIds then Minted(mint, r.count) else call.UpstreamId()
  }

  function Accept(r: Registry, q: Request, id: string): Registry {
    var upstream := q.call.UpstreamId();
    Registry(
      if upstream == "" then r.seen else r.seen[Key(q.index, upstream) := Identity(q.call.name, q.call.args, id)],
      r.usedIds + {id},
      r.count + 1)
  }

  function OutcomeOf(r: Registry, q: Request, mint: nat -> string): Outcome {
    var key := Key(q.index, q.call.UpstreamId());
    if !WellNamed(q.call) then Rejected
    else if q.call.UpstreamId() != "" && key in r.seen then
      if SameContent(r.seen[key], q.call) then Repeated(r.seen[key].id) else Rejected
    else if r.count >= MAX_TOOL_CALLS then Rejected
    else Accepted(Chosen(r, q.call, mint))
  }

  /** `streamToolRegistry.prepare`. */
  function Prepared(r: Registry, q: Request, mint: nat -> string): Registry {
    match OutcomeOf(r, q, mint)
    case Accepted(id) => Accept(r, q, id)
    case _ => r
  }

  function After(calls: seq<Request>, n: nat, mint: nat -> string): Registry
    requires n <= |calls|
  {
    if n == 0 then Empty() else Prepared(After(calls, n - 1, mint), calls[n - 1], mint)
  }

  /** What the registry answers to call number i of a sequence. */
  function Answer(calls: seq<Request>, i: nat, mint: nat -> string): Outcome
    requires i < |calls|
  {
    OutcomeOf(After(calls, i, mint), calls[i], mint)
  }

  class ToolRegistry {
    var seen: map<string, Identity>
    var usedIds: set<string>
    var count: nat

    function Model(): Registry
      reads this
    {
      Registry(seen, usedIds, count)
    }

    constructor ()
      ensures Model() == Empty()
    {
      seen, usedIds, count := map[], {}, 0;
    }

    method Prepare(index: int, call: FunctionCall, mint: nat -> string) returns (outcome: Outcome)
      modifies this
      ensures outcome == OutcomeOf(old(Model()), Request(index, call), mint)
      ensures Model() == Prepared(old(Model()), Request(index, call), mint)
    {
      if TrimSpace(call.name) == "" {
        return Rejected;
      }
      var id := call.UpstreamId();
      if |id| > MAX_ID_LENGTH {
        return Rejected;
      }
      var key := "";
      if id != "" {
        key := Key(index, id);
        if key in seen {
          if SameContent(seen[key], call) {
            return Repeated(seen[key].id);
          }
          return Rejected;
        }
      }
      if count >= MAX_TOOL_CALLS {
        return Rejected;
      }
      if id == "" || id in usedIds {
        id := Minted(mint, count);
      }
      count := count + 1;
      usedIds := usedIds + {id};
      if key != "" {
        seen := seen[key := Identity(call.name, call.args, id)];
      }
      return Accepted(id);
    }
  }

  // ---- The key ---------------------------------------------------------------------

  lemma ColonSplits(a: string, b: string, s: string, t: string)
    requires ':' !in a && ':' !in b && a + ":" + s == b + ":" + t
    ensures a == b && s == t
  {
    var whole := a + ":" + s;
    assert forall k | 0 <= k < |a| :: whole[k] == a[k];
    assert forall k | 0 <= k < |b| :: whole[k] == b[k];
    assert whole[|a|] == ':' && whole[|b|] == ':';
    assert |a| == |b|;
    assert a == whole[..|a|] && b == whole[..|b|];
    assert s == whole[|a| + 1..] && t == whole[|b| + 1..];
  }

  lemma {:induction false} DecimalHasNoSign(n: nat)
    ensures '-' !in Decimal(n) && |Decimal(n)| > 0
  {
    if n >= 10 {
      DecimalHasNoSign(n / 10);
    }
  }

  lemma KeyIsInjective(i: int, s: string, j: int, t: string)
    requires Key(i, s) == Key(j, t)
    ensures i == j && s == t
  {
    var m, n := if i < 0 then -i else i, if j < 0 then -j else j;
    DecimalHasNoColon(m);
    DecimalHasNoColon(n);
    DecimalHasNoSign(m);
    DecimalHasNoSign(n);
    var a := if i < 0 then "-" + Decimal(m) else Decimal(m);
    var b := if j < 0 then "-" + Decimal(n) else Decimal(n);
    ColonSplits(a, b, s, t);
    assert (a[0] == '-') == (i < 0) && (b[0] == '-') == (j < 0);
    if i < 0 {
      assert Decimal(m) == a[1..] && Decimal(n) == b[1..];
    }
    DecimalIsInjective(m, n);
  }

  // ---- What a run has recorded -----------------------------------------------------

  predicate SameKey(p: Request, q: Request) {
    q.call.UpstreamId() != "" && p.index == q.index && p.call.UpstreamId() == q.call.UpstreamId()
  }

  /** Call i was accepted under the index and identifier of q. */
  predicate AcceptedAs(calls: seq<Request>, i: nat, q: Request, mint: nat -> string)
    requires i < |calls|
  {
    SameKey(calls[i], q) && Answer(calls, i, mint).Accepted?
  }

  lemma {:induction false} SeenNamesAnEarlierCall(calls: seq<Request>, n: nat, q: Request, mint: nat -> string)
    returns (i: nat)
    requires n <= |calls| && q.call.UpstreamId() != ""
    requires Key(q.index, q.call.UpstreamId()) in After(calls, n, mint).seen
    ensures i < n && AcceptedAs(calls, i, q, mint)
    ensures After(calls, n, mint).seen[Key(q.index, q.call.UpstreamId())]
         == Identity(calls[i].call.name, calls[i].call.args, Answer(calls, i, mint).id)
  {
    var last := calls[n - 1];
    var key := Key(q.index, q.call.UpstreamId());
    if Answer(calls, n - 1, mint).Accepted? && last.call.UpstreamId() != ""
      && Key(last.index, last.call.UpstreamId()) == key {
      KeyIsInjective(last.index, last.call.UpstreamId(), q.index, q.call.UpstreamId());
      i := n - 1;
    } else {
      i := SeenNamesAnEarlierCall(calls, n - 1, q, mint);
    }
  }

  lemma {:induction false} EarlierCallIsSeen(calls: seq<Request>, i: nat, n: nat, q: Request, mint: nat -> string)
    requires i < n <= |calls| && AcceptedAs(calls, i, q, mint)
    ensures var key := Key(q.index, q.call.UpstreamId());
      key in After(calls, n, mint).seen
      && After(calls, n, mint).seen[key] == Identity(calls[i].call.name, calls[i].call.args, Answer(calls, i, mint).id)
  {
    hide Key, OutcomeOf;
    if i < n - 1 {
      EarlierCallIsSeen(calls, i, n - 1, q, mint);
      SeenStays(After(calls, n - 1, mint), calls[n - 1], Key(q.index, q.call.UpstreamId()), mint);
    } else {
      assert calls[i].call.UpstreamId() != "";
    }
  }

  /** What is recorded under a key is never replaced. */
  lemma SeenStays(r: Registry, q: Request, key: string, mint: nat -> string)
    requires key in r.seen
    ensures key in Prepared(r, q, mint).seen && Prepared(r, q, mint).seen[key] == r.seen[key]
  {
    hide Key;
  }

  /** One index and identifier is accepted at most once. */
  lemma AcceptedOnce(calls: seq<Request>, i: nat, j: nat, mint: nat -> string)
    requires i < j < |calls| && Answer(calls, i, mint).Accepted? && SameKey(calls[i], calls[j])
    ensures !Answer(calls, j, mint).Accepted?
  {
    EarlierCallIsSeen(calls, i, j, calls[j], mint);
  }

  /** A call is a repeat exactly when an earlier one with its index, identifier, name and arguments was accepted. */
  lemma RepeatIffAcceptedBefore(calls: seq<Request>, j: nat, id: string, mint: nat -> string)
    requires j < |calls|
    ensures Answer(calls, j, mint) == Repeated(id) <==>
      (&& WellNamed(calls[j].call)
       && exists i | 0 <= i < j :: AcceptedAs(calls, i, calls[j], mint) && Answer(calls, i, mint).id == id
            && calls[i].call.name == calls[j].call.name && calls[i].call.args == calls[j].call.args)
  {
    var q := calls[j];
    if Answer(calls, j, mint) == Repeated(id) {
      var i := SeenNamesAnEarlierCall(calls, j, q, mint);
      assert AcceptedAs(calls, i, q, mint);
    }
    forall i | 0 <= i < j && AcceptedAs(calls, i, q, mint)
      ensures Key(q.index, q.call.UpstreamId()) in After(calls, j, mint).seen
      ensures After(calls, j, mint).seen[Key(q.index, q.call.UpstreamId())]
           == Identity(calls[i].call.name, calls[i].call.args, Answer(calls, i, mint).id)
    {
      EarlierCallIsSeen(calls, i, j, q, mint);
    }
  }

  /** Using an accepted index and identifier again with another name or other arguments fails. */
  lemma ConflictIsRejected(calls: seq<Request>, i: nat, j: nat, mint: nat -> string)
    requires i < j < |calls| && AcceptedAs(calls, i, calls[j], mint)
    requires calls[i].call.name != calls[j].call.name || calls[i].call.args != calls[j].call.args
    ensures Answer(calls, j, mint).Rejected?
  {
    EarlierCallIsSeen(calls, i, j, calls[j], mint);
  }

  // ---- Distinct identifiers --------------------------------------------------------

  function UpstreamIds(calls: seq<Request>): set<string> {
    set q | q in calls :: q.call.UpstreamId()
  }

  /** Minted identifiers are distinct, and are none of the given identifiers. */
  ghost predicate MintsFresh(mint: nat -> string, ids: set<string>) {
    && (forall m: nat, n: nat :: Minted(mint, m) == Minted(mint, n) ==> m == n)
    && (forall n: nat :: Minted(mint, n) !in ids)
  }

  /** A used identifier was sent by upstream or minted for an earlier number. */
  lemma {:induction false} UsedIdsHaveOrigin(calls: seq<Request>, n: nat, x: string, mint: nat -> string)
    requires n <= |calls| && x in After(calls, n, mint).usedIds
    ensures (exists i | 0 <= i < n :: calls[i].call.UpstreamId() == x)
      || exists k: nat :: k < After(calls, n, mint).count && Minted(mint, k) == x
  {
    if x in After(calls, n - 1, mint).usedIds {
      UsedIdsHaveOrigin(calls, n - 1, x, mint);
    } else {
      assert Answer(calls, n - 1, mint) == Accepted(x);
    }
  }

  lemma AcceptedIdIsUnused(calls: seq<Request>, j: nat, mint: nat -> string)
    requires j < |calls| && Answer(calls, j, mint).Accepted? && MintsFresh(mint, UpstreamIds(calls))
    ensures Answer(calls, j, mint).id !in After(calls, j, mint).usedIds
  {
    var x := Answer(calls, j, mint).id;
    if x in After(calls, j, mint).usedIds {
      assert x == Minted(mint, After(calls, j, mint).count);
      UsedIdsHaveOrigin(calls, j, x, mint);
    }
  }

  lemma UsedIdsGrow(r: Registry, q: Request, mint: nat -> string)
    ensures r.usedIds <= Prepared(r, q, mint).usedIds
    ensures OutcomeOf(r, q, mint).Accepted? ==> OutcomeOf(r, q, mint).id in Prepared(r, q, mint).usedIds
  {
    hide OutcomeOf;
  }

  lemma {:induction false} AcceptedIdStaysUsed(calls: seq<Request>, i: nat, n: nat, mint: nat -> string)
    requires i < n <= |calls| && Answer(calls, i, mint).Accepted?
    ensures Answer(calls, i, mint).id in After(calls, n, mint).usedIds
  {
    hide OutcomeOf, Prepared;
    UsedIdsGrow(After(calls, n - 1, mint), calls[n - 1], mint);
    if i < n - 1 {
      AcceptedIdStaysUsed(calls, i, n - 1, mint);
    }
  }

  /** Any two accepted calls have different identifiers. */
  lemma AcceptedIdsAreDistinct(calls: seq<Request>, i: nat, j: nat, mint: nat -> string)
    requires i < j < |calls| && MintsFresh(mint, UpstreamIds(calls))
    requires Answer(calls, i, mint).Accepted? && Answer(calls, j, mint).Accepted?
    ensures Answer(calls, i, mint).id != Answer(calls, j, mint).id
  {
    AcceptedIdStaysUsed(calls, i, j, mint);
    AcceptedIdIsUnused(calls, j, mint);
  }

  function AcceptedIn(calls: seq<Request>, n: nat, mint: nat -> string): set<nat>
    requires n <= |calls|
  {
    set i: nat | i < n && Answer(calls, i, mint).Accepted?
  }

  lemma CountNeverExceedsMax(r: Registry, q: Request, mint: nat -> string)
    requires r.count <= MAX_TOOL_CALLS
    ensures Prepared(r, q, mint).count == r.count + (if OutcomeOf(r, q, mint).Accepted? then 1 else 0)
    ensures Prepared(r, q, mint).count <= MAX_TOOL_CALLS
  {
  }

  lemma AnswerIsOutcome(calls: seq<Request>, i: nat, mint: nat -> string)
    requires i < |calls|
    ensures Answer(calls, i, mint) == OutcomeOf(After(calls, i, mint), calls[i], mint)
  {
  }

  /** The counter is the number of accepted calls, and at most 4096 are accepted. */
  lemma {:induction false} AtMostMaxAccepted(calls: seq<Request>, n: nat, mint: nat -> string)
    requires n <= |calls|
    ensures |AcceptedIn(calls, n, mint)| == After(calls, n, mint).count <= MAX_TOOL_CALLS
  {
    hide OutcomeOf, Prepared, Answer;
    if n == 0 {
      assert AcceptedIn(calls, 0, mint) == {} && Empty().count == 0;
    } else {
      AtMostMaxAccepted(calls, n - 1, mint);
      CountNeverExceedsMax(After(calls, n - 1, mint), calls[n - 1], mint);
      var before := AcceptedIn(calls, n - 1, mint);
      AnswerIsOutcome(calls, n - 1, mint);
      if Answer(calls, n - 1, mint).Accepted? {
        assert AcceptedIn(calls, n, mint) == before + {n - 1};
      } else {
        assert AcceptedIn(calls, n, mint) == before;
      }
    }
  }

  // ---- Every answer, by the calls before it --------------------------------------------

  /** The identifier upstream gives a call: `call_id` unless that is blank, else `id`. */
  function GivenId(call: FunctionCall): string {
    if !IsBlank(call.callId) then call.callId else if !IsBlank(call.id) then call.id else ""
  }

  lemma GivenIdIsUpstreams(call: FunctionCall)
    ensures GivenId(call) == call.UpstreamId()
  {
    BlankIffTrimsToNothing(call.callId);
    BlankIffTrimsToNothing(call.id);
  }

  lemma {:induction false} UsedIdsIff(calls: seq<Request>, n: nat, x: string, mint: nat -> string)
    requires n <= |calls|
    ensures x in After(calls, n, mint).usedIds <==>
      exists i | 0 <= i < n :: Answer(calls, i, mint) == Accepted(x)
  {
    hide Key, WellNamed, SameContent, Chosen;
    if n > 0 {
      UsedIdsIff(calls, n - 1, x, mint);
      if Answer(calls, n - 1, mint) == Accepted(x) {
        assert x in After(calls, n, mint).usedIds;
      }
    }
  }

  /** Some earlier call with the same index and nonempty identifier was accepted. */
  ghost predicate Taken(calls: seq<Request>, j: nat, mint: nat -> string)
    requires j < |calls|
  {
    exists i | 0 <= i < j :: Answer(calls, i, mint).Accepted? && calls[i].index == calls[j].index
      && GivenId(calls[i].call) == GivenId(calls[j].call) != ""
  }

  /** Such a call had the same name and arguments. */
  ghost predicate TakenAlike(calls: seq<Request>, j: nat, mint: nat -> string)
    requires j < |calls|
  {
    exists i | 0 <= i < j :: Answer(calls, i, mint).Accepted? && calls[i].index == calls[j].index
      && GivenId(calls[i].call) == GivenId(calls[j].call) != ""
      && calls[i].call.name == calls[j].call.name && calls[i].call.args == calls[j].call.args
  }

  lemma TakenIffSeen(calls: seq<Request>, j: nat, mint: nat -> string)
    requires j < |calls|
    ensures var q, r := calls[j], After(calls, j, mint);
      var key := Key(q.index, q.call.UpstreamId());
      && (Taken(calls, j, mint) <==> q.call.UpstreamId() != "" && key in r.seen)
      && (TakenAlike(calls, j, mint) <==>
            q.call.UpstreamId() != "" && key in r.seen && SameContent(r.seen[key], q.call))
  {
    hide Key, OutcomeOf, After, GivenId;
    var q, r := calls[j], After(calls, j, mint);
    var key := Key(q.index, q.call.UpstreamId());
    forall i | 0 <= i < |calls|
      ensures GivenId(calls[i].call) == calls[i].call.UpstreamId()
    {
      GivenIdIsUpstreams(calls[i].call);
    }
    if q.call.UpstreamId() != "" && key in r.seen {
      var i := SeenNamesAnEarlierCall(calls, j, q, mint);
      assert AcceptedAs(calls, i, q, mint);
    }
    forall i | 0 <= i < j && AcceptedAs(calls, i, q, mint)
      ensures key in r.seen
      ensures r.seen[key] == Identity(calls[i].call.name, calls[i].call.args, Answer(calls, i, mint).id)
    {
      EarlierCallIsSeen(calls, i, j, q, mint);
    }
  }

  /**
   A call of a sequence is accepted exactly when it has a name, an identifier no longer than 512, none
   accepted before it under its index and identifier, and fewer than 4096 accepted before it. It is
   a repeat exactly when it has name and length and one accepted before it is alike.
   */
  lemma AnswersByCalls(calls: seq<Request>, j: nat, mint: nat -> string)
    requires j < |calls|
    ensures var call := calls[j].call;
      var proper := !IsBlank(call.name) && |GivenId(call)| <= 512;
      && (Answer(calls, j, mint).Accepted? <==>
            proper && !Taken(calls, j, mint) && |AcceptedIn(calls, j, mint)| < 4096)
      && (Answer(calls, j, mint).Repeated? <==> proper && TakenAlike(calls, j, mint))
  {
    hide After, GivenId, SameContent, Chosen, AcceptedIn, Key, Taken, TakenAlike, IsBlank;
    TakenIffSeen(calls, j, mint);
    GivenIdIsUpstreams(calls[j].call);
    AtMostMaxAccepted(calls, j, mint);
    BlankIffTrimsToNothing(calls[j].call.name);
  }

  /**
   An accepted call keeps the identifier that upstream gives it unless that is empty or one accepted before
   it has it; then it is given the next generated one.
   */
  lemma IdIsKeptIff(calls: seq<Request>, j: nat, mint: nat -> string)
    requires j < |calls| && Answer(calls, j, mint).Accepted?
    ensures var given := GivenId(calls[j].call);
      Answer(calls, j, mint).id ==
        if given != "" && forall i | 0 <= i < j :: Answer(calls, i, mint) != Accepted(given) then given
        else "call_" + mint(|AcceptedIn(calls, j, mint)|)
  {
    hide After, GivenId, SameContent, AcceptedIn, Key, WellNamed;
    GivenIdIsUpstreams(calls[j].call);
    UsedIdsIff(calls, j, GivenId(calls[j].call), mint);
    AtMostMaxAccepted(calls, j, mint);
  }

  // ---- Renaming --------------------------------------------------------------------

  /** Two identifiers are the same upstream identifier, or were minted for the same number. */
  ghost predicate SameUpToMint(x: string, y: string, mint: nat -> string, other: nat -> string) {
    || x == y
    || exists k: nat :: Minted(mint, k) == x && Minted(other, k) == y
  }

  ghost predicate OutcomesMatch(a: Outcome, b: Outcome, mint: nat -> string, other: nat -> string) {
    match (a, b)
    case (Accepted(x), Accepted(y)) => SameUpToMint(x, y, mint, other)
    case (Repeated(x), Repeated(y)) => SameUpToMint(x, y, mint, other)
    case (Rejected, Rejected) => true
    case _ => false
  }

  ghost predicate SeenMatch(r: Registry, s: Registry, mint: nat -> string, other: nat -> string) {
    && r.seen.Keys == s.seen.Keys
    && forall key <- r.seen :: r.seen[key].name == s.seen[key].name && r.seen[key].args == s.seen[key].args
         && SameUpToMint(r.seen[key].id, s.seen[key].id, mint, other)
  }

  /** Two registries agree on everything but minted identifiers, as far as `ids` can tell. */
  ghost predicate Matches(r: Registry, s: Registry, ids: set<string>, mint: nat -> string, other: nat -> string) {
    && SeenMatch(r, s, mint, other)
    && r.count == s.count
    && r.usedIds * ids == s.usedIds * ids
  }

  lemma ChosenMatches(r: Registry, s: Registry, q: Request, ids: set<string>, mint: nat -> string, other: nat -> string)
    requires Matches(r, s, ids, mint, other) && q.call.UpstreamId() in ids
    ensures SameUpToMint(Chosen(r, q.call, mint), Chosen(s, q.call, other), mint, other)
    ensures q.call.UpstreamId() in r.usedIds <==> q.call.UpstreamId() in s.usedIds
  {
    assert q.call.UpstreamId() in r.usedIds <==> q.call.UpstreamId() in r.usedIds * ids;
    assert q.call.UpstreamId() in s.usedIds <==> q.call.UpstreamId() in s.usedIds * ids;
  }

  lemma UsedMatches(r: Registry, s: Registry, q: Request, ids: set<string>, mint: nat -> string, other: nat -> string)
    requires Matches(r, s, ids, mint, other) && q.call.UpstreamId() in ids && MintsFresh(mint, ids)
    requires MintsFresh(other, ids)
    ensures (r.usedIds + {Chosen(r, q.call, mint)}) * ids == (s.usedIds + {Chosen(s, q.call, other)}) * ids
  {
    ChosenMatches(r, s, q, ids, mint, other);
    assert (r.usedIds + {Chosen(r, q.call, mint)}) * ids == r.usedIds * ids + {Chosen(r, q.call, mint)} * ids;
    assert (s.usedIds + {Chosen(s, q.call, other)}) * ids == s.usedIds * ids + {Chosen(s, q.call, other)} * ids;
  }

  lemma PreparingMatches(r: Registry, s: Registry, q: Request, ids: set<string>, mint: nat -> string,
                         other: nat -> string)
    requires Matches(r, s, ids, mint, other) && q.call.UpstreamId() in ids && MintsFresh(mint, ids)
    requires MintsFresh(other, ids)
    ensures OutcomesMatch(OutcomeOf(r, q, mint), OutcomeOf(s, q, other), mint, other)
    ensures Matches(Prepared(r, q, mint), Prepared(s, q, other), ids, mint, other)
  {
    hide Chosen, MintsFresh, SameUpToMint;
    ChosenMatches(r, s, q, ids, mint, other);
    UsedMatches(r, s, q, ids, mint, other);
  }

  /** Generated identifiers never influence which calls are accepted, repeated or rejected. */
  lemma {:induction false} AnswersMatchUpToMint(calls: seq<Request>, n: nat, mint: nat -> string, other: nat -> string)
    requires n <= |calls| && MintsFresh(mint, UpstreamIds(calls)) && MintsFresh(other, UpstreamIds(calls))
    ensures Matches(After(calls, n, mint), After(calls, n, other), UpstreamIds(calls), mint, other)
    ensures forall i | 0 <= i < n :: OutcomesMatch(Answer(calls, i, mint), Answer(calls, i, other), mint, other)
  {
    hide MintsFresh, Matches, OutcomesMatch, OutcomeOf, Prepared;
    if n == 0 {
      EmptyMatches(UpstreamIds(calls), mint, other);
    } else {
      AnswersMatchUpToMint(calls, n - 1, mint, other);
      assert calls[n - 1] in calls;
      PreparingMatches(After(calls, n - 1, mint), After(calls, n - 1, other), calls[n - 1], UpstreamIds(calls), mint,
        other);
    }
  }

  lemma EmptyMatches(ids: set<string>, mint: nat -> string, other: nat -> string)
    ensures Matches(Empty(), Empty(), ids, mint, other)
  {
  }
}
