/**
 The headroom, told from outside: which requests are within it, and when there
 is none, in terms of what is declared, observed, assignable, published and free.
 */
module Budgets {
  import opened Prelude
  import opened AgentCapacity
  import opened Admission
  import opened AdmissionRun

  /** One resource of a Machine, as each source of information gives it. */
  datatype Known = Known(
    declared: Quantity,
    observed: Option<Quantity>,
    assignable: Option<Quantity>,
    published: Option<Quantity>,
    free: Option<Quantity>)

  function OneOf(a: Option<Amount>, cpu: bool): Option<Quantity> {
    if a == None then None else Some(Of(a.value, cpu))
  }

  function Of(a: Amount, cpu: bool): Quantity {
    if cpu then a.cpu else a.memory
  }

  /** What is known of a Machine's processors, or of its memory. */
  function KnownOf(m: Machine, node: NodeView, cpu: bool): Known {
    Known(Of(m.capacity, cpu), OneOf(m.observed, cpu), OneOf(m.assignable, cpu),
          if m.phase == Live then OneOf(m.published, cpu) else None,
          if m.nodeKnown then OneOf(node.free, cpu) else None)
  }

  /**
   A request and its sidecars fit every budget there is: beside the others, with
   their sidecars, within what is declared, observed and assignable; beside the
   others' sidecars within what is published, to which the request's own former
   use is given back; and within what the Node has free once its own pods are gone.
   */
  predicate FitsAll(k: Known, used: Quantity, othersOverhead: Quantity, own: Quantity, reclaimed: Quantity,
                    total: Quantity) {
    && (k.declared != 0 ==> used + total <= k.declared)
    && (k.observed.Some? ==> used + total <= k.observed.value)
    && (k.assignable.Some? ==> used + total <= k.assignable.value)
    && (k.published.Some? ==> othersOverhead + total <= k.published.value + own)
    && (k.free.Some? ==> total <= k.free.value + reclaimed)
  }

  /** The stored use of the Agent that is edited. */
  function OwnStored(store: Store, machine: Name, excluded: Option<Name>): Amount {
    if excluded.Some? && excluded.value in store &&
       store[excluded.value].machine == machine then store[excluded.value].use
    else Zero()
  }

  function OwnPods(excluded: Option<Name>, node: NodeView): Amount {
    if excluded.Some? && node.ownPods.Some? then Reclaimed(node.ownPods.value) else Zero()
  }

  ghost predicate RequestFits(m: Machine, store: Store, excluded: Option<Name>, node: NodeView, use: Amount,
                              cpu: bool) {
    FitsAll(KnownOf(m, node, cpu), Of(Used(Others(store, m.name, excluded)), cpu),
            OthersOverhead(store, m.name, excluded, cpu), Of(OwnStored(store, m.name, excluded), cpu),
            Of(OwnPods(excluded, node), cpu), Of(use, cpu) + Of(OVERHEAD, cpu))
  }

  // ---- the sums of the code, over the stored Agents ----

  lemma {:induction false} TimesIs(n: nat, a: Amount)
    ensures Times(n, a) == Amount(n * a.cpu, n * a.memory)
  {
    if n > 0 {
      TimesIs(n - 1, a);
    }
  }

  lemma {:induction false} CountIs(agents: seq<Agent>, store: Store, m: Machine, excluded: Option<Name>)
    requires Lists(agents, store)
    ensures NumCounted(agents, m, excluded) == |Others(store, m.name, excluded)|
  {
    if agents == [] {
      assert Others(store, m.name, excluded) == map[];
    } else {
      var last := agents[|agents| - 1];
      CountIs(agents[..|agents| - 1], store - {last.name}, m, excluded);
      var all, rest := Others(store, m.name, excluded), Others(store - {last.name}, m.name, excluded);
      if Counted(last, m, excluded) {
        assert all.Keys == rest.Keys + {last.name};
      } else {
        assert all == rest;
      }
      assert |all.Keys| == |all| && |rest.Keys| == |rest|;
    }
  }

  predicate Edited(a: Agent, m: Machine, excluded: Option<Name>) {
    a.machine == m.name && Some(a.name) == excluded
  }

  lemma {:induction false} OwnUseAppend(agents: seq<Agent>, a: Agent, m: Machine, excluded: Option<Name>)
    ensures OwnUse(agents + [a], m, excluded)
         == if exists b <- agents :: Edited(b, m, excluded) then OwnUse(agents, m, excluded)
            else if Edited(a, m, excluded) then a.use else Zero()
  {
    if agents == [] {
      assert ([] + [a])[1..] == [];
    } else {
      assert (agents + [a])[0] == agents[0] && (agents + [a])[1..] == agents[1..] + [a];
      OwnUseAppend(agents[1..], a, m, excluded);
      assert agents == [agents[0]] + agents[1..];
      assert (exists b <- agents :: Edited(b, m, excluded))
        <==> Edited(agents[0], m, excluded) || exists b <- agents[1..] :: Edited(b, m, excluded);
    }
  }

  lemma {:induction false} OwnUseIs(agents: seq<Agent>, store: Store, m: Machine, excluded: Option<Name>)
    requires Lists(agents, store)
    ensures OwnUse(agents, m, excluded) == OwnStored(store, m.name, excluded)
    ensures (exists b <- agents :: Edited(b, m, excluded))
       <==> excluded.Some? && excluded.value in store && store[excluded.value].machine == m.name
  {
    if agents != [] {
      var k := |agents| - 1;
      OwnUseIs(agents[..k], store - {agents[k].name}, m, excluded);
      OwnUseAppend(agents[..k], agents[k], m, excluded);
      assert agents == agents[..k] + [agents[k]];
    }
  }

  /** What a pod holds of its Node: its requests, while it is there, unfinished and not being deleted. */
  function Share(p: Pod): Amount {
    if p.onNode && !p.finished && !p.deleting then SumAmounts(p.requests) else Zero()
  }

  lemma PlusSwap(a: Amount, b: Amount, c: Amount)
    ensures a.Plus(b).Plus(c) == a.Plus(c).Plus(b)
  {
  }

  lemma ReclaimedAppend(pods: seq<Pod>, p: Pod)
    ensures Reclaimed(pods + [p]) == Reclaimed(pods).Plus(Share(p))
  {
    assert (pods + [p])[..|pods|] == pods;
  }

  /** Pods count in any order, each for its share. */
  lemma {:induction false} PodByPod(pods: seq<Pod>, k: nat)
    requires k < |pods|
    ensures Reclaimed(pods) == Reclaimed(pods[..k] + pods[k + 1..]).Plus(Share(pods[k]))
  {
    var n := |pods| - 1;
    var init, last := pods[..n], pods[n];
    assert pods == init + [last];
    ReclaimedAppend(init, last);
    if k == n {
      assert pods[..k] + pods[k + 1..] == init;
    } else {
      var rest := init[..k] + init[k + 1..];
      assert pods[..k] + pods[k + 1..] == rest + [last];
      PodByPod(init, k);
      ReclaimedAppend(rest, last);
      PlusSwap(Reclaimed(rest), Share(pods[k]), Share(last));
    }
  }

  // ---- which requests are within the headroom ----

  /** What the smallest budget leaves for one request. */
  function Spare(k: Known, used: Quantity, othersOverhead: Quantity, own: Quantity, reclaimed: Quantity,
                 overhead: Quantity): Quantity {
    var held := if k.observed.Some? &&
                   (k.declared == 0 || k.observed.value < k.declared) then k.observed.value else k.declared;
    var start := if k.assignable.Some? then Min(held, k.assignable.value) else held;
    var budget := start - (used - othersOverhead);
    var reserved := (if k.published.Some? then Min(budget, k.published.value + own)
                     else budget) - othersOverhead - overhead;
    if k.free.Some? then Min(reserved, k.free.value + reclaimed - overhead) else reserved
  }

  lemma SpareFits(k: Known, used: Quantity, othersOverhead: Quantity, own: Quantity, reclaimed: Quantity,
                  overhead: Quantity, use: Quantity)
    requires !(k.declared == 0 && k.observed == None && (k.assignable == None || k.assignable.value >= 0))
    ensures use <= Spare(k, used, othersOverhead, own, reclaimed, overhead)
       <==> FitsAll(k, used, othersOverhead, own, reclaimed, use + overhead)
  {
  }

  function OthersOverhead(store: Store, machine: Name, excluded: Option<Name>, cpu: bool): Quantity {
    |Others(store, machine, excluded)| * Of(OVERHEAD, cpu)
  }

  lemma OverheadIs(agents: seq<Agent>, store: Store, m: Machine, excluded: Option<Name>, cpu: bool)
    requires Lists(agents, store)
    ensures OthersOverhead(store, m.name, excluded, cpu) == Of(Times(NumCounted(agents, m, excluded), OVERHEAD), cpu)
  {
    CountIs(agents, store, m, excluded);
    TimesIs(NumCounted(agents, m, excluded), OVERHEAD);
  }

  function Reserve(k: Known, used: Quantity, othersOverhead: Quantity, own: Quantity, overhead: Quantity): Quantity {
    Spare(k.(free := None), used, othersOverhead, own, 0, overhead)
  }

  lemma ReservedIs(m: Machine, agents: seq<Agent>, store: Store, excluded: Option<Name>, node: NodeView, cpu: bool)
    requires Lists(agents, store)
    ensures Of(Reserved(m, agents, excluded), cpu)
         == Reserve(KnownOf(m, node, cpu), Of(Used(Others(store, m.name, excluded)), cpu),
                    OthersOverhead(store, m.name, excluded, cpu), Of(OwnStored(store, m.name, excluded), cpu),
                    Of(OVERHEAD, cpu))
  {
    ListSum(agents, store, m, excluded);
    OverheadIs(agents, store, m, excluded, cpu);
    OwnUseIs(agents, store, m, excluded);
    ReservedFromSums(m, agents, excluded, node, cpu);
  }

  /** The same, for any sums. */
  lemma ReservedParts(m: Machine, node: NodeView, requests: Amount, overhead: Amount, own: Amount, last: Amount,
                      cpu: bool)
    ensures var start := Amount(StartingCpu(m), StartingMemory(m)).Minus(requests);
            var budget := if m.phase == Live &&
                             m.published.Some? then start.Lower(m.published.value.Plus(own)) else start;
            Of(budget.Minus(overhead.Plus(last)), cpu)
            == Reserve(KnownOf(m, node, cpu), Of(requests, cpu)
                       + Of(overhead, cpu), Of(overhead, cpu), Of(own, cpu), Of(last, cpu))
  {
  }

  lemma ReservedFromSums(m: Machine, agents: seq<Agent>, excluded: Option<Name>, node: NodeView, cpu: bool)
    ensures var requests := SumCounted(agents, m, excluded);
            var overhead := Times(NumCounted(agents, m, excluded), OVERHEAD);
            Of(Reserved(m, agents, excluded), cpu)
            == Reserve(KnownOf(m, node, cpu), Of(requests, cpu) + Of(overhead, cpu), Of(overhead, cpu),
                       Of(OwnUse(agents, m, excluded), cpu), Of(OVERHEAD, cpu))
  {
    var overhead := Times(NumCounted(agents, m, excluded), OVERHEAD);
    assert Times(NumCounted(agents, m, excluded) + 1, OVERHEAD) == overhead.Plus(OVERHEAD);
    ReservedParts(m, node, SumCounted(agents, m, excluded), overhead, OwnUse(agents, m, excluded), OVERHEAD, cpu);
  }

  lemma HeadroomParts(m: Machine, agents: seq<Agent>, excluded: Option<Name>, node: NodeView, cpu: bool)
    requires Headroom(m, agents, excluded, node).Ok?
    ensures var reserved, free := Of(Reserved(m, agents, excluded), cpu), KnownOf(m, node, cpu).free;
            var spare := if free == None then reserved
                         else Min(reserved, free.value + Of(OwnPods(excluded, node), cpu) - Of(OVERHEAD, cpu));
            Of(Headroom(m, agents, excluded, node).value, cpu) == if spare < 0 then 0 else spare
  {
  }

  /** Processors and memory are computed alike. */
  lemma HeadroomIs(m: Machine, agents: seq<Agent>, store: Store, excluded: Option<Name>, node: NodeView, cpu: bool)
    requires Lists(agents, store) && Headroom(m, agents, excluded, node).Ok?
    ensures var spare := Spare(KnownOf(m, node, cpu), Of(Used(Others(store, m.name, excluded)), cpu),
                               OthersOverhead(store, m.name, excluded, cpu),
                               Of(OwnStored(store, m.name, excluded), cpu),
                               Of(OwnPods(excluded, node), cpu), Of(OVERHEAD, cpu));
            Of(Headroom(m, agents, excluded, node).value, cpu) == if spare < 0 then 0 else spare
  {
    ReservedIs(m, agents, store, excluded, node, cpu);
    HeadroomParts(m, agents, excluded, node, cpu);
  }

  /** A positive request is within the headroom exactly when it fits every budget. */
  lemma HeadroomExactly(m: Machine, agents: seq<Agent>, store: Store, excluded: Option<Name>, node: NodeView,
                        use: Amount,
                        cpu: bool)
    requires Lists(agents, store) && Headroom(m, agents, excluded, node).Ok? && Of(use, cpu) > 0
    ensures Of(use, cpu) <= Of(Headroom(m, agents, excluded, node).value, cpu)
       <==> RequestFits(m, store, excluded, node, use, cpu)
  {
    HeadroomIs(m, agents, store, excluded, node, cpu);
    SpareFits(KnownOf(m, node, cpu), Of(Used(Others(store, m.name, excluded)), cpu),
              OthersOverhead(store, m.name, excluded, cpu), Of(OwnStored(store, m.name, excluded), cpu),
              Of(OwnPods(excluded, node), cpu), Of(OVERHEAD, cpu), Of(use, cpu));
  }

  predicate Measured(k: Known) {
    k.declared >= 0 && (k.observed.Some? ==> k.observed.value >= 0) && (k.assignable.Some? ==> k.assignable.value >= 0)
  }

  /** Nothing is known of a resource, or some source says that there is none. */
  predicate Unknown(k: Known) {
    (k.declared == 0 && k.observed == None) || k.observed == Some(0) || k.assignable == Some(0)
  }

  /**
   There is no headroom exactly for a Machine that is not live, of unknown capacity or whose Node is
   needed and cannot be read.
   */
  lemma HeadroomFails(m: Machine, agents: seq<Agent>, excluded: Option<Name>, node: NodeView)
    requires Measured(KnownOf(m, node, true)) && Measured(KnownOf(m, node, false))
    ensures var unknown := Unknown(KnownOf(m, node, true)) || Unknown(KnownOf(m, node, false));
            var unread := node.free == None || (excluded != None && node.ownPods == None);
            var r := Headroom(m, agents, excluded, node);
            && (r == Err(MachineNotLive) <==> m.phase == NotLive)
            && (r == Err(CapacityUnknown) <==> m.phase != NotLive && unknown)
            && (r == Err(NodeUnknown) <==> m.phase == Live && !unknown && !m.nodeKnown && !m.simulated)
            && (r == Err(NodeUnreadable) <==> m.phase != NotLive && !unknown && m.nodeKnown && unread)
  {
  }

  // ---- which requests are admitted ----

  /**
   A create is admitted exactly when it is on the grid, there is headroom, and it fits every budget
   of both resources.
   */
  lemma CreateAdmittedExactly(name: Name, use: Amount, m: Machine, list: seq<Agent>, store: Store, node: NodeView)
    requires Lists(list, store)
    ensures Admits(None, Create(name, use), m, list, node) <==>
            && ValidCpu(use.cpu) && ValidMemory(use.memory) && Headroom(m, list, None, node).Ok?
            && RequestFits(m, store, None, node, use, true) && RequestFits(m, store, None, node, use, false)
  {
    if ValidCpu(use.cpu) && ValidMemory(use.memory) && Headroom(m, list, None, node).Ok? {
      HeadroomExactly(m, list, store, None, node, use, true);
      HeadroomExactly(m, list, store, None, node, use, false);
    }
  }

  /**
   An edit is admitted exactly when what changes is on the grid and, if anything grows, it fits as a
   create would in its place.
   */
  lemma EditAdmittedExactly(before: Amount, name: Name, use: Amount, m: Machine, list: seq<Agent>, store: Store,
                            node: NodeView)
    requires Lists(list, store) && use.cpu > 0 && use.memory > 0
    ensures Admits(Some(before), Edit(name, use), m, list, node) <==>
            && (use.cpu != before.cpu ==> ValidCpu(use.cpu)) &&
               (use.memory != before.memory ==> ValidMemory(use.memory))
            && (use.cpu > before.cpu || use.memory > before.memory ==>
                  && Headroom(m, list, Some(name), node).Ok?
                  && RequestFits(m, store, Some(name), node, use, true) &&
                     RequestFits(m, store, Some(name), node, use, false))
  {
    if Headroom(m, list, Some(name), node).Ok? {
      HeadroomExactly(m, list, store, Some(name), node, use, true);
      HeadroomExactly(m, list, store, Some(name), node, use, false);
    }
  }
}
