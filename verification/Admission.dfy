/**
 Allocation writes for one Machine, across every interleaving of replicas: each
 caller acquires the lease, reads the Agents afresh, checks the headroom, writes
 and releases, while Agents are deleted and other Machines are written freely.
 */
module Admission {
  import opened Prelude
  import opened AgentCapacity

  // ---- what is allocated ----

  /** The stored Agents: the Machine each is on, and what it requests. */
  datatype Entry = Entry(machine: Name, use: Amount)

  type Store = map<Name, Entry>

  /** The requests of the Agents on one Machine. */
  function On(store: Store, machine: Name): map<Name, Amount> {
    map n | n in store && store[n].machine == machine :: store[n].use
  }

  /** Everything a set of Agents takes: their requests and one sidecar allowance each. */
  ghost function Used(uses: map<Name, Amount>): Amount
    decreases |uses|
  {
    if uses == map[] then Zero()
    else
      var n :| n in uses;
      uses[n].Plus(OVERHEAD).Plus(Used(uses - {n}))
  }

  lemma Swap(a: Amount, b: Amount, c: Amount)
    ensures a.Plus(b.Plus(c)) == b.Plus(a.Plus(c))
  {
  }

  lemma Regroup(a: Amount, b: Amount, c: Amount, d: Amount)
    ensures a.Plus(b).Plus(c.Plus(d)) == c.Plus(a).Plus(d.Plus(b))
  {
  }

  lemma {:induction false} UsedSplit(uses: map<Name, Amount>, n: Name)
    requires n in uses
    ensures Used(uses) == uses[n].Plus(OVERHEAD).Plus(Used(uses - {n}))
    decreases |uses|
  {
    var k :| k in uses && Used(uses) == uses[k].Plus(OVERHEAD).Plus(Used(uses - {k}));
    if k != n {
      var both := uses - {k} - {n};
      assert both == uses - {n} - {k};
      UsedSplit(uses - {k}, n);
      UsedSplit(uses - {n}, k);
      Swap(uses[k].Plus(OVERHEAD), uses[n].Plus(OVERHEAD), Used(both));
    }
  }

  predicate Positive(uses: map<Name, Amount>) {
    forall n :: n in uses ==> uses[n].NonNegative()
  }

  predicate Part(small: map<Name, Amount>, large: map<Name, Amount>) {
    forall n :: n in small ==> n in large && small[n] == large[n]
  }

  lemma {:induction false} UsedGrows(small: map<Name, Amount>, large: map<Name, Amount>)
    requires Positive(large) && Part(small, large)
    ensures Used(small).Within(Used(large)) && Used(small).NonNegative()
    decreases |large|
  {
    if large == map[] {
      assert small == map[];
    } else if n :| n in large {
      UsedSplit(large, n);
      if n in small {
        UsedSplit(small, n);
        UsedGrows(small - {n}, large - {n});
      } else {
        UsedGrows(small, large - {n});
      }
    }
  }

  predicate AllPositive(store: Store) {
    forall n :: n in store ==> store[n].use.NonNegative()
  }

  ghost predicate Fits(store: Store, machine: Name, limit: Amount) {
    Used(On(store, machine)).Within(limit)
  }

  // ---- a fresh list, and what the headroom check promises about it ----

  /** The list an uncached read returns: every stored Agent exactly once, in some order. */
  predicate Lists(agents: seq<Agent>, store: Store) {
    if agents == [] then store == map[]
    else
      var last := agents[|agents| - 1];
      && last.name in store && store[last.name] == Entry(last.machine, last.use)
      && Lists(agents[..|agents| - 1], store - {last.name})
  }

  function Others(store: Store, machine: Name, excluded: Option<Name>): map<Name, Amount> {
    map n | n in store && store[n].machine == machine && Some(n) != excluded :: store[n].use
  }

  /** The loop over the list adds up exactly what the counted Agents take. */
  lemma {:induction false} ListSum(agents: seq<Agent>, store: Store, m: Machine, excluded: Option<Name>)
    requires Lists(agents, store)
    ensures Used(Others(store, m.name, excluded)) == Listed(agents, m, excluded)
    decreases |agents|
  {
    if agents == [] {
      assert Others(store, m.name, excluded) == map[];
    } else {
      var k := |agents| - 1;
      ListSum(agents[..k], store - {agents[k].name}, m, excluded);
      OthersStep(agents[k], store, m, excluded);
      ListedStep(agents, m, excluded);
    }
  }

  /** What the counted records of a list take. */
  function Listed(agents: seq<Agent>, m: Machine, excluded: Option<Name>): Amount {
    SumCounted(agents, m, excluded).Plus(Times(NumCounted(agents, m, excluded), OVERHEAD))
  }

  lemma ListedStep(agents: seq<Agent>, m: Machine, excluded: Option<Name>)
    requires agents != []
    ensures var a, rest := agents[|agents| - 1], Listed(agents[..|agents| - 1], m, excluded);
            Listed(agents, m, excluded) == if Counted(a, m, excluded) then a.use.Plus(OVERHEAD).Plus(rest) else rest
  {
    var k := |agents| - 1;
    Regroup(agents[k].use, OVERHEAD, SumCounted(agents[..k], m, excluded),
            Times(NumCounted(agents[..k], m, excluded), OVERHEAD));
  }

  lemma OthersStep(a: Agent, store: Store, m: Machine, excluded: Option<Name>)
    requires a.name in store && store[a.name] == Entry(a.machine, a.use)
    ensures var rest := Used(Others(store - {a.name}, m.name, excluded));
            Used(Others(store, m.name, excluded)) == if Counted(a, m, excluded) then a.use.Plus(OVERHEAD).Plus(rest)
            else rest
  {
    var all, rest := Others(store, m.name, excluded), Others(store - {a.name}, m.name, excluded);
    if Counted(a, m, excluded) {
      assert all - {a.name} == rest;
      UsedSplit(all, a.name);
    } else {
      assert all == rest;
    }
  }

  /** Room for one Agent of the given name and size beside everybody else on the Machine. */
  ghost predicate RoomFor(store: Store, machine: Name, name: Name, use: Amount, limit: Amount) {
    Used(Others(store, machine, Some(name))).Plus(use).Plus(OVERHEAD).Within(limit)
  }

  /**
   A positive request within the headroom has room, per resource, whatever the
   Machine's published status and Node say at that moment.
   */
  lemma HeadroomLeavesRoom(m: Machine, agents: seq<Agent>, store: Store, excluded: Option<Name>, node: NodeView,
                           use: Amount)
    requires Lists(agents, store)
    requires Headroom(m, agents, excluded, node).Ok?
    requires use.Within(Headroom(m, agents, excluded, node).value)
    ensures var total := Used(Others(store, m.name, excluded)).Plus(use).Plus(OVERHEAD);
            (use.cpu > 0 ==> total.cpu <= Limit(m).cpu) && (use.memory > 0 ==> total.memory <= Limit(m).memory)
  {
    ListSum(agents, store, m, excluded);
    StartingWithinLimit(m);
    HeadroomWithinReserved(m, agents, excluded, node);
  }

  lemma HeadroomWithinReserved(m: Machine, agents: seq<Agent>, excluded: Option<Name>, node: NodeView)
    requires Headroom(m, agents, excluded, node).Ok?
    ensures Headroom(m, agents, excluded, node).value.Within(Clamp(Reserved(m, agents, excluded)))
    ensures Reserved(m, agents, excluded).Within(
              Amount(StartingCpu(m), StartingMemory(m)).Minus(SumCounted(agents, m, excluded))
              .Minus(Times(NumCounted(agents, m, excluded), OVERHEAD)).Minus(OVERHEAD))
  {
  }
}
