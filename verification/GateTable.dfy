/** The gate table in place: each method is one critical section or channel operation of `acquireGate`. */
module GateTables {
  import opened GateProtocol

  class AccountGate {
    var tokens: nat
    var refs: int

    constructor ()
      ensures tokens == CAPACITY && refs == 0
    {
      tokens, refs := CAPACITY, 0;
    }
  }

  class GateTable {
    var gates: map<Key, AccountGate>
    ghost var objects: set<AccountGate>               // every gate object created so far
    ghost var procs: map<Pid, Phase<AccountGate>>     // where each concurrent caller is

    ghost function Model(): State<AccountGate>
      reads this, objects
    {
      State(map g | g in objects :: Gate(g.tokens, g.refs), gates, procs)
    }

    ghost predicate Valid()
      reads this, objects
    {
      Inv(Model())
    }

    constructor ()
      ensures Valid() && Model() == Initial()
    {
      gates, objects, procs := map[], {}, map[];
    }

    /** The locked prologue: find or create the gate of `id` and count one more reference. */
    method Enter(id: Key, ghost p: Pid) returns (gate: AccountGate)
      requires Valid() && p !in procs
      modifies this, objects
      ensures Valid()
      ensures Enabled(old(Model()), Step.Enter(p, id, gate)) && Model() == Apply(old(Model()), Step.Enter(p, id, gate))
    {
      hide Inv;
      ghost var before := Model();
      if id in gates {
        EntryIsAllocated(before, id);
        gate := gates[id];
      } else {
        gate := new AccountGate();
        gates := gates[id := gate];
        objects := objects + {gate};
      }
      gate.refs := gate.refs + 1;
      procs := procs[p := Waiting(id, gate)];
      assert Enabled(before, Step.Enter(p, id, gate));
      StepKeepsInv(before, Step.Enter(p, id, gate));
      assert Model() == Apply(before, Step.Enter(p, id, gate)) by {
        assert Model().heap == Apply(before, Step.Enter(p, id, gate)).heap;
      }
    }

    /** The select receives the token. */
    method Take(gate: AccountGate, ghost p: Pid)
      requires Valid() && p in procs && procs[p].Waiting? && procs[p].gate == gate
      requires gate in objects && gate.tokens > 0
      modifies this`procs, gate
      ensures Valid() && Model() == Apply(old(Model()), Step.Take(p))
    {
      hide Inv;
      ghost var before := Model();
      gate.tokens := gate.tokens - 1;
      procs := procs[p := Holding(procs[p].id, gate)];
      StepKeepsInv(before, Step.Take(p));
      assert Model().heap == Apply(before, Step.Take(p)).heap;
    }

    /** The select sees the end of the context first; the caller goes on to `Drop`. */
    ghost method Cancel(gate: AccountGate, p: Pid)
      requires Valid() && p in procs && procs[p].Waiting? && procs[p].gate == gate
      modifies this`procs
      ensures Valid() && Model() == Apply(old(Model()), Step.Cancel(p))
    {
      hide Inv;
      var before := Model();
      CallerIsLinked(before, p);
      procs := procs[p := Cancelled(procs[p].id, gate)];
      StepKeepsInv(before, Step.Cancel(p));
      assert Model().heap == Apply(before, Step.Cancel(p)).heap;
    }

    /** The first half of the returned unlock function: the send never blocks. */
    method Return(gate: AccountGate, ghost p: Pid)
      requires Valid() && p in procs && procs[p].Holding? && procs[p].gate == gate
      modifies this`procs, gate
      ensures Enabled(old(Model()), Step.Return(p))
      ensures Valid() && Model() == Apply(old(Model()), Step.Return(p))
    {
      hide Inv;
      ghost var before := Model();
      CallerIsLinked(before, p);
      ReturnNeverBlocks(before, p);
      gate.tokens := gate.tokens + 1;
      procs := procs[p := Returned(procs[p].id, gate)];
      StepKeepsInv(before, Step.Return(p));
      assert Model().heap == Apply(before, Step.Return(p)).heap;
    }

    /** The locked epilogue shared by cancellation and unlock. */
    method Drop(id: Key, gate: AccountGate, ghost p: Pid)
      requires Valid() && p in procs && (procs[p].Returned? || procs[p].Cancelled?)
      requires procs[p].gate == gate && procs[p].id == id
      modifies this, gate
      ensures Valid() && Model() == Apply(old(Model()), Step.Drop(p))
    {
      hide Inv;
      ghost var before := Model();
      CallerIsLinked(before, p);
      gate.refs := gate.refs - 1;
      if gate.refs == 0 {
        gates := gates - {id};
      }
      procs := procs - {p};
      StepKeepsInv(before, Step.Drop(p));
      assert Model().heap == Apply(before, Step.Drop(p)).heap;
    }
  }
}
