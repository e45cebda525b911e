/**
 The reference-counted, cancellable gate of `acquireGate`, as a state machine whose
 steps are the critical sections of concurrent callers.

 A process is one call of `acquireGate`, from the reference it takes to the reference
 it drops. `R` stands for the identity of a gate object: the table maps a key to an
 object, and an object that was deleted from the table stays in the heap.
 */
module GateProtocol {
  import opened Sets

  type Key = string
  type Pid = nat

  /** `tokens` is the content of a channel of capacity one. */
  datatype Gate = Gate(tokens: nat, refs: int)

  datatype Phase<R> =
    | Waiting(id: Key, gate: R)    // counted in refs, blocked in the select
    | Holding(id: Key, gate: R)    // took the token
    | Returned(id: Key, gate: R)   // put the token back, reference not dropped yet
    | Cancelled(id: Key, gate: R)  // the context ended first, reference not dropped yet

  datatype State<R> = State(heap: map<R, Gate>, gates: map<Key, R>, procs: map<Pid, Phase<R>>)

  datatype Step<R> =
    | Enter(p: Pid, id: Key, created: R)
    | Take(p: Pid)
    | Cancel(p: Pid)
    | Return(p: Pid)
    | Drop(p: Pid)

  const CAPACITY: nat := 1

  ghost function Initial<R>(): State<R> {
    State(map[], map[], map[])
  }

  predicate Enabled<R(==)>(s: State<R>, step: Step<R>) {
    match step
    case Enter(p, id, created) => p !in s.procs && (id in s.gates || created !in s.heap)
    case Take(p) => p in s.procs && s.procs[p].Waiting? && s.procs[p].gate in s.heap
      && s.heap[s.procs[p].gate].tokens > 0
    case Cancel(p) => p in s.procs && s.procs[p].Waiting? && s.procs[p].gate in s.heap
    // A send on a full channel would block.
    case Return(p) => p in s.procs && s.procs[p].Holding? && s.procs[p].gate in s.heap
      && s.heap[s.procs[p].gate].tokens < CAPACITY
    case Drop(p) => p in s.procs && (s.procs[p].Returned? || s.procs[p].Cancelled?) && s.procs[p].gate in s.heap
  }

  /** A new caller counted on gate `g`, which is either the table's gate for `id` or a new one. */
  function Entered<R>(s: State<R>, p: Pid, id: Key, g: R): State<R> {
    var before := if g in s.heap then s.heap[g] else Gate(CAPACITY, 0);
    State(s.heap[g := before.(refs := before.refs + 1)], s.gates[id := g], s.procs[p := Waiting(id, g)])
  }

  /** A caller that stays on its gate, and moves the token only when it starts or stops holding. */
  function Rephase<R>(s: State<R>, p: Pid, phase: Phase<R>, tokens: nat): State<R>
    requires phase.gate in s.heap
  {
    State(s.heap[phase.gate := s.heap[phase.gate].(tokens := tokens)], s.gates, s.procs[p := phase])
  }

  function Dropped<R>(s: State<R>, p: Pid): State<R>
    requires p in s.procs && s.procs[p].gate in s.heap
  {
    var d := s.procs[p];
    var refs := s.heap[d.gate].refs - 1;
    State(s.heap[d.gate := s.heap[d.gate].(refs := refs)],
          if refs == 0 then s.gates - {d.id} else s.gates,
          s.procs - {p})
  }

  function Apply<R(==)>(s: State<R>, step: Step<R>): State<R>
    requires Enabled(s, step)
  {
    match step
    case Enter(p, id, created) =>
      Entered(s, p, id, if id in s.gates then s.gates[id] else created)
    case Take(p) =>
      var w := s.procs[p];
      Rephase(s, p, Holding(w.id, w.gate), s.heap[w.gate].tokens - 1)
    case Cancel(p) =>
      var w := s.procs[p];
      Rephase(s, p, Cancelled(w.id, w.gate), s.heap[w.gate].tokens)
    case Return(p) =>
      var h := s.procs[p];
      Rephase(s, p, Returned(h.id, h.gate), s.heap[h.gate].tokens + 1)
    case Drop(p) =>
      Dropped(s, p)
  }

  ghost function Users<R>(s: State<R>, g: R): set<Pid> {
    set p | p in s.procs && s.procs[p].gate == g
  }

  ghost function Holders<R>(s: State<R>, g: R): set<Pid> {
    set p | p in s.procs && s.procs[p].gate == g && s.procs[p].Holding?
  }

  /** Every caller's gate object is the one the table has under the caller's key, and every entry is referenced. */
  ghost predicate Linked<R>(s: State<R>) {
    && (forall id <- s.gates :: s.gates[id] in s.heap && s.heap[s.gates[id]].refs > 0)
    && (forall id1, id2 | id1 in s.gates && id2 in s.gates && s.gates[id1] == s.gates[id2] :: id1 == id2)
    && (forall p <- s.procs :: s.procs[p].id in s.gates && s.gates[s.procs[p].id] == s.procs[p].gate)
  }

  /** References are waiters plus holders plus callers about to drop; tokens plus holders fill the channel. */
  ghost predicate CountedAt<R>(s: State<R>, g: R)
    requires g in s.heap
  {
    s.heap[g].refs == |Users(s, g)| && s.heap[g].tokens + |Holders(s, g)| == CAPACITY
  }

  /** Reference counts and tokens account for the callers. */
  ghost predicate Counted<R>(s: State<R>) {
    forall g <- s.heap :: CountedAt(s, g)
  }

  ghost predicate Inv<R>(s: State<R>) {
    Linked(s) && Counted(s)
  }

  lemma InitialInv<R>()
    ensures Inv(Initial<R>())
  {
  }

  /** Gates other than `g` keep their counts when only `g` is written and only `p` moves, on `g`. */
  lemma OthersKeepCounts<R>(s: State<R>, t: State<R>, p: Pid, g: R)
    requires forall h <- s.heap :: CountedAt(s, h)
    requires t.heap.Keys == s.heap.Keys + {g} && forall h <- s.heap | h != g :: t.heap[h] == s.heap[h]
    requires forall q | q != p :: (q in s.procs <==> q in t.procs) && (q in s.procs ==> s.procs[q] == t.procs[q])
    requires p in s.procs ==> s.procs[p].gate == g
    requires p in t.procs ==> t.procs[p].gate == g
    requires CountedAt(t, g)
    ensures forall h <- t.heap :: CountedAt(t, h)
  {
    forall h <- t.heap ensures CountedAt(t, h) {
      if h != g {
        assert CountedAt(s, h);
        assert Users(t, h) == Users(s, h);
        assert Holders(t, h) == Holders(s, h);
      }
    }
  }

  lemma RephaseKeepsLinked<R>(s: State<R>, p: Pid, phase: Phase<R>, tokens: nat)
    requires Linked(s) && p in s.procs && phase.gate in s.heap
    requires phase.id == s.procs[p].id && phase.gate == s.procs[p].gate
    ensures Linked(Rephase(s, p, phase, tokens))
  {
  }

  lemma RephaseKeepsCount<R>(s: State<R>, p: Pid, phase: Phase<R>, tokens: nat)
    requires p in s.procs && phase.gate in s.heap && CountedAt(s, phase.gate)
    requires phase.gate == s.procs[p].gate
    requires tokens + (if phase.Holding? then 1 else 0)
          == s.heap[phase.gate].tokens + (if s.procs[p].Holding? then 1 else 0)
    ensures CountedAt(Rephase(s, p, phase, tokens), phase.gate)
  {
    var g, t := phase.gate, Rephase(s, p, phase, tokens);
    assert Users(t, g) == Users(s, g);
    assert Holders(t, g) == if phase.Holding? then Holders(s, g) + {p} else Holders(s, g) - {p};
  }

  lemma RephaseKeepsInv<R>(s: State<R>, p: Pid, phase: Phase<R>, tokens: nat)
    requires Inv(s) && p in s.procs && phase.gate in s.heap
    requires phase.id == s.procs[p].id && phase.gate == s.procs[p].gate
    requires tokens + (if phase.Holding? then 1 else 0)
          == s.heap[phase.gate].tokens + (if s.procs[p].Holding? then 1 else 0)
    ensures Inv(Rephase(s, p, phase, tokens))
  {
    hide Linked, CountedAt;
    RephaseKeepsLinked(s, p, phase, tokens);
    RephaseKeepsCount(s, p, phase, tokens);
    OthersKeepCounts(s, Rephase(s, p, phase, tokens), p, phase.gate);
  }

  lemma EnteredKeepsLinked<R>(s: State<R>, p: Pid, id: Key, g: R)
    requires Linked(s) && p !in s.procs
    requires if id in s.gates then g == s.gates[id] else g !in s.heap
    ensures Linked(Entered(s, p, id, g))
  {
  }

  lemma EnteredKeepsCount<R>(s: State<R>, p: Pid, id: Key, g: R)
    requires p !in s.procs
    requires if g in s.heap then CountedAt(s, g) else Users(s, g) == {}
    ensures CountedAt(Entered(s, p, id, g), g)
  {
    var t := Entered(s, p, id, g);
    assert Users(t, g) == Users(s, g) + {p};
    assert Holders(t, g) == Holders(s, g);
    if g !in s.heap {
      assert Holders(s, g) <= Users(s, g);
    }
  }

  lemma UnallocatedHasNoUsers<R>(s: State<R>, g: R)
    requires Linked(s) && g !in s.heap
    ensures Users(s, g) == {}
  {
  }

  lemma EnteredKeepsInv<R>(s: State<R>, p: Pid, id: Key, g: R)
    requires Inv(s) && p !in s.procs
    requires if id in s.gates then g == s.gates[id] else g !in s.heap
    ensures Inv(Entered(s, p, id, g))
  {
    EnteredKeepsLinked(s, p, id, g);
    assert if g in s.heap then CountedAt(s, g) else Users(s, g) == {} by {
      if g !in s.heap {
        UnallocatedHasNoUsers(s, g);
      }
    }
    hide Linked, CountedAt;
    EnteredKeepsCount(s, p, id, g);
    OthersKeepCounts(s, Entered(s, p, id, g), p, g);
  }

  /** Deleting the entry orphans nobody: with no references left, no other caller is on that gate. */
  lemma DroppedKeepsLinked<R>(s: State<R>, p: Pid)
    requires Linked(s) && p in s.procs && s.procs[p].gate in s.heap && CountedAt(s, s.procs[p].gate)
    ensures Linked(Dropped(s, p))
  {
    var d, t := s.procs[p], Dropped(s, p);
    if s.heap[d.gate].refs == 1 {
      forall q <- t.procs ensures t.procs[q].id != d.id {
        if t.procs[q].id == d.id {
          AtMostOne(Users(s, d.gate), p, q);
        }
      }
    }
  }

  lemma DroppedKeepsCount<R>(s: State<R>, p: Pid)
    requires p in s.procs && !s.procs[p].Holding? && s.procs[p].gate in s.heap && CountedAt(s, s.procs[p].gate)
    ensures CountedAt(Dropped(s, p), s.procs[p].gate)
  {
    var g, t := s.procs[p].gate, Dropped(s, p);
    assert Users(t, g) == Users(s, g) - {p};
    assert Holders(t, g) == Holders(s, g);
  }

  lemma DroppedKeepsInv<R>(s: State<R>, p: Pid)
    requires Inv(s) && p in s.procs && !s.procs[p].Holding?
    ensures Inv(Dropped(s, p))
  {
    hide CountedAt;
    DroppedKeepsLinked(s, p);
    DroppedKeepsCount(s, p);
    OthersKeepCounts(s, Dropped(s, p), p, s.procs[p].gate);
  }

  /** Every interleaving: a step from a consistent state leads to a consistent state. */
  lemma StepKeepsInv<R>(s: State<R>, step: Step<R>)
    requires Inv(s) && Enabled(s, step)
    ensures Inv(Apply(s, step))
  {
    hide Linked, Counted, Rephase, Entered, Dropped;
    match step
    case Enter(p, id, created) =>
      EnteredKeepsInv(s, p, id, if id in s.gates then s.gates[id] else created);
    case Take(p) =>
      var w := s.procs[p];
      RephaseKeepsInv(s, p, Holding(w.id, w.gate), s.heap[w.gate].tokens - 1);
    case Cancel(p) =>
      var w := s.procs[p];
      RephaseKeepsInv(s, p, Cancelled(w.id, w.gate), s.heap[w.gate].tokens);
    case Return(p) =>
      var h := s.procs[p];
      RephaseKeepsInv(s, p, Returned(h.id, h.gate), s.heap[h.gate].tokens + 1);
    case Drop(p) =>
      DroppedKeepsInv(s, p);
  }

  /** A caller's gate is allocated and is the table's gate for its key. */
  lemma CallerIsLinked<R>(s: State<R>, p: Pid)
    requires Inv(s) && p in s.procs
    ensures s.procs[p].gate in s.heap && s.procs[p].id in s.gates && s.gates[s.procs[p].id] == s.procs[p].gate
  {
  }

  lemma EntryIsAllocated<R>(s: State<R>, id: Key)
    requires Inv(s) && id in s.gates
    ensures s.gates[id] in s.heap
  {
  }

  /** At most one caller holds a key, even across deletion and re-creation of its gate. */
  lemma MutualExclusion<R>(s: State<R>, p: Pid, q: Pid)
    requires Inv(s)
    requires p in s.procs && q in s.procs && s.procs[p].Holding? && s.procs[q].Holding?
    requires s.procs[p].id == s.procs[q].id
    ensures p == q
  {
    var g := s.procs[p].gate;
    assert p in Holders(s, g) && q in Holders(s, g);
    AtMostOne(Holders(s, g), p, q);
  }

  /** Handing the token back never blocks. */
  lemma ReturnNeverBlocks<R>(s: State<R>, p: Pid)
    requires Inv(s) && p in s.procs && s.procs[p].Holding?
    ensures Enabled(s, Step<R>.Return(p))
  {
    var g := s.procs[p].gate;
    assert p in Holders(s, g);
    assert |Holders(s, g)| > 0;
  }

  /** A key is in the table exactly while some caller still refers to its gate. */
  lemma EntryIffReferenced<R>(s: State<R>, id: Key)
    requires Inv(s)
    ensures id in s.gates <==> exists p :: p in s.procs && s.procs[p].id == id
  {
    if id in s.gates {
      var g := s.gates[id];
      assert |Users(s, g)| > 0;
      var p :| p in Users(s, g);
      assert s.procs[p].id == id;
    }
  }

  /** No token is lost: when nobody holds a key, any caller waiting for it can take it. */
  lemma WaiterCanTake<R>(s: State<R>, p: Pid)
    requires Inv(s) && p in s.procs && s.procs[p].Waiting?
    requires forall q | q in s.procs && s.procs[q].Holding? :: s.procs[q].id != s.procs[p].id
    ensures Enabled(s, Step<R>.Take(p))
  {
    var g := s.procs[p].gate;
    assert Holders(s, g) == {};
  }

  /** The states of a run. */
  ghost predicate IsRun<R(!new)>(run: seq<State<R>>) {
    && |run| > 0
    && run[0] == Initial()
    && forall i | 0 <= i < |run| - 1 ::
         exists step :: Enabled(run[i], step)
           && run[i + 1] == Apply(run[i], step)
  }

  lemma {:induction false} RunKeepsInv<R(!new)>(run: seq<State<R>>, n: nat)
    requires IsRun(run) && n < |run|
    ensures Inv(run[n])
  {
    if n == 0 {
      InitialInv<R>();
    } else {
      RunKeepsInv(run, n - 1);
      var s := run[n - 1];
      assert n == (n - 1) + 1;
      var step :| Enabled(s, step)
        && run[n] == Apply(s, step);
      StepKeepsInv(s, step);
    }
  }
}
