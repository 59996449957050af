/**
 How much of a Machine one more Agent may take: exact quantities, the operator
 grid, and the headroom computed from a fresh Agent list.
 */
module AgentCapacity {
  import opened Prelude

  /** An exact quantity, counted in billionths of a core or of a byte. */
  type Quantity = int

  const MILLI: Quantity := 1_000_000
  const UNIT: Quantity := 1_000_000_000
  const MEBI: Quantity := 1024 * 1024 * UNIT

  datatype Amount = Amount(cpu: Quantity, memory: Quantity) {
    function Plus(other: Amount): Amount {
      Amount(cpu + other.cpu, memory + other.memory)
    }

    function Minus(other: Amount): Amount {
      Amount(cpu - other.cpu, memory - other.memory)
    }

    function Lower(other: Amount): Amount {
      Amount(Min(cpu, other.cpu), Min(memory, other.memory))
    }

    predicate Within(other: Amount) {
      cpu <= other.cpu && memory <= other.memory
    }

    predicate NonNegative() {
      cpu >= 0 && memory >= 0
    }
  }

  function Zero(): Amount {
    Amount(0, 0)
  }

  /** The allowance for one Agent's sidecars. */
  const OVERHEAD := Amount(100 * MILLI, 512 * MEBI)

  // ---- the operator grid ----

  const MINIMUM := Amount(100 * MILLI, 128 * MEBI)

  function CeilDiv(q: int, d: int): int
    requires d > 0
  {
    -((-q) / d)
  }

  /** The checks in the order the code makes them, with the rounding-up accessor it uses. */
  predicate ValidCpu(q: Quantity) {
    var milli := CeilDiv(q, MILLI);
    !(q < MINIMUM.cpu) && !(milli % 50 != 0 || q != milli * MILLI)
  }

  predicate ValidMemory(q: Quantity) {
    var bytes := CeilDiv(q, UNIT);
    !(q < MINIMUM.memory) && !(bytes % (128 * 1024 * 1024) != 0 || q != bytes * UNIT)
  }

  /** Accepted quantities are exactly the grid points from the minimum up. */
  lemma GridIsExact(q: Quantity)
    ensures ValidCpu(q) <==> exists k :: k >= 2 && q == k * (50 * MILLI)
    ensures ValidMemory(q) <==> exists k :: k >= 1 && q == k * (128 * MEBI)
  {
    if ValidCpu(q) {
      var milli := CeilDiv(q, MILLI);
      assert q == (milli / 50) * (50 * MILLI);
    }
    if k :| k >= 2 && q == k * (50 * MILLI) {
      assert CeilDiv(q, MILLI) == k * 50;
    }
    if ValidMemory(q) {
      var bytes := CeilDiv(q, UNIT);
      assert q == (bytes / (128 * 1024 * 1024)) * (128 * MEBI);
    }
    if k :| k >= 1 && q == k * (128 * MEBI) {
      assert CeilDiv(q, UNIT) == k * (128 * 1024 * 1024);
    }
  }

  // ---- Machines, Agents, Nodes ----

  type Name = nat

  datatype Agent = Agent(name: Name, machine: Name, use: Amount)

  datatype Phase = Unset | Live | NotLive

  datatype Machine = Machine(
    name: Name,
    capacity: Amount,
    phase: Phase,
    observed: Option<Amount>,
    assignable: Option<Amount>,
    published: Option<Amount>,
    nodeKnown: bool,
    simulated: bool)

  /** A pod of the edited Agent; `requests` lists its containers and init containers. */
  datatype Pod = Pod(onNode: bool, finished: bool, deleting: bool, requests: seq<Amount>)

  /** What reading the Node and the edited Agent's pods returned. */
  datatype NodeView = NodeView(free: Option<Amount>, ownPods: Option<seq<Pod>>)

  datatype HeadroomError = MachineNotLive | CapacityUnknown | NodeUnknown | NodeUnreadable

  // ---- specification ----

  function StartingCpu(m: Machine): Quantity {
    var c := m.capacity.cpu;
    var c1 := if m.observed.Some? && (c == 0 || m.observed.value.cpu < c) then m.observed.value.cpu else c;
    if m.assignable.Some? then Min(c1, m.assignable.value.cpu) else c1
  }

  function StartingMemory(m: Machine): Quantity {
    var c := m.capacity.memory;
    var c1 := if m.observed.Some? && (c == 0 || m.observed.value.memory < c) then m.observed.value.memory else c;
    if m.assignable.Some? then Min(c1, m.assignable.value.memory) else c1
  }

  /** The declared capacity, or the observed one where none is declared. */
  function Limit(m: Machine): Amount {
    var fallback := if m.observed.Some? then m.observed.value else Zero();
    Amount(if m.capacity.cpu != 0 then m.capacity.cpu else fallback.cpu,
           if m.capacity.memory != 0 then m.capacity.memory else fallback.memory)
  }

  lemma StartingWithinLimit(m: Machine)
    ensures Amount(StartingCpu(m), StartingMemory(m)).Within(Limit(m))
  {
  }

  predicate Counted(a: Agent, m: Machine, excluded: Option<Name>) {
    a.machine == m.name && Some(a.name) != excluded
  }

  function SumCounted(agents: seq<Agent>, m: Machine, excluded: Option<Name>): Amount {
    if agents == [] then Zero()
    else
      var k := |agents| - 1;
      var rest := SumCounted(agents[..k], m, excluded);
      if Counted(agents[k], m, excluded) then rest.Plus(agents[k].use) else rest
  }

  function NumCounted(agents: seq<Agent>, m: Machine, excluded: Option<Name>): nat {
    if agents == [] then 0
    else
      var k := |agents| - 1;
      NumCounted(agents[..k], m, excluded) + if Counted(agents[k], m, excluded) then 1 else 0
  }

  function Times(n: nat, a: Amount): Amount {
    if n == 0 then Zero() else Times(n - 1, a).Plus(a)
  }

  /** The edited Agent's present use, from the first record that names it. */
  function OwnUse(agents: seq<Agent>, m: Machine, excluded: Option<Name>): Amount {
    if agents == [] then Zero()
    else if agents[0].machine == m.name && Some(agents[0].name) == excluded then agents[0].use
    else OwnUse(agents[1..], m, excluded)
  }

  function SumAmounts(s: seq<Amount>): Amount {
    if s == [] then Zero() else SumAmounts(s[..|s| - 1]).Plus(s[|s| - 1])
  }

  function PodUse(p: Pod): Amount {
    if p.onNode && !p.finished && !p.deleting then SumAmounts(p.requests) else Zero()
  }

  function Reclaimed(pods: seq<Pod>): Amount {
    if pods == [] then Zero() else Reclaimed(pods[..|pods| - 1]).Plus(PodUse(pods[|pods| - 1]))
  }

  /** What reservations leave: the starting amount less every other Agent, all sidecars included. */
  function Reserved(m: Machine, agents: seq<Agent>, excluded: Option<Name>): Amount {
    var all := Times(NumCounted(agents, m, excluded) + 1, OVERHEAD);
    var budget := Amount(StartingCpu(m), StartingMemory(m)).Minus(SumCounted(agents, m, excluded));
    (if m.phase == Live && m.published.Some?
     then budget.Lower(m.published.value.Plus(OwnUse(agents, m, excluded)))
     else budget).Minus(all)
  }

  function Clamp(a: Amount): Amount {
    Amount(if a.cpu < 0 then 0 else a.cpu, if a.memory < 0 then 0 else a.memory)
  }

  /** What the Node itself has free, once the replaced pods are gone. */
  function NodeLimit(excluded: Option<Name>, node: NodeView): Result<Amount, HeadroomError> {
    if node.free == None || (excluded != None && node.ownPods == None) then Err(NodeUnreadable)
    else Ok(node.free.value.Plus(if excluded != None then Reclaimed(node.ownPods.value) else Zero()).Minus(OVERHEAD))
  }

  function Headroom(m: Machine, agents: seq<Agent>, excluded: Option<Name>, node: NodeView): Result<Amount,
    HeadroomError> {
    if m.phase == NotLive then Err(MachineNotLive)
    else if StartingCpu(m) == 0 || StartingMemory(m) == 0 then Err(CapacityUnknown)
    else if !m.nodeKnown then
      if m.phase == Live && !m.simulated then Err(NodeUnknown) else Ok(Clamp(Reserved(m, agents, excluded)))
    else
      var limit := NodeLimit(excluded, node);
      if limit.Err? then limit else Ok(Clamp(Reserved(m, agents, excluded).Lower(limit.value)))
  }

  /** What is asked for, and its sidecars, are within the free amount. */
  predicate FitsIn(use: Amount, free: Amount) {
    && (use.cpu > 0 ==> use.cpu + 100 * MILLI <= free.cpu)
    && (use.memory > 0 ==> use.memory + 512 * MEBI <= free.memory)
  }

  /** Within the headroom, the Node and the published budget are respected too, where they are known. */
  lemma HeadroomRespectsAllBudgets(m: Machine, agents: seq<Agent>, excluded: Option<Name>, node: NodeView, use: Amount)
    requires Headroom(m, agents, excluded, node).Ok? && use.Within(Headroom(m, agents, excluded, node).value)
    ensures m.nodeKnown ==>
              var reclaimed := if excluded != None then Reclaimed(node.ownPods.value) else Zero();
              node.free.Some? && FitsIn(use, node.free.value.Plus(reclaimed))
    ensures m.phase == Live && m.published.Some? ==>
              var others := Times(NumCounted(agents, m, excluded), OVERHEAD);
              FitsIn(use, m.published.value.Plus(OwnUse(agents, m, excluded)).Minus(others))
  {
    var others := Times(NumCounted(agents, m, excluded), OVERHEAD);
    assert Times(NumCounted(agents, m, excluded) + 1, OVERHEAD) == others.Plus(OVERHEAD);
    assert Headroom(m, agents, excluded, node).value.Within(Clamp(Reserved(m, agents, excluded)));
  }

  // ---- the computation, in place ----

  method StartingAmount(m: Machine) returns (available: Amount)
    ensures available == Amount(StartingCpu(m), StartingMemory(m))
  {
    available := m.capacity;
    if m.observed.Some? {
      if available.cpu == 0 || m.observed.value.cpu < available.cpu {
        available := available.(cpu := m.observed.value.cpu);
      }
      if available.memory == 0 || m.observed.value.memory < available.memory {
        available := available.(memory := m.observed.value.memory);
      }
    }
    if m.assignable.Some? {
      if m.assignable.value.cpu < available.cpu {
        available := available.(cpu := m.assignable.value.cpu);
      }
      if m.assignable.value.memory < available.memory {
        available := available.(memory := m.assignable.value.memory);
      }
    }
  }

  method SubtractOthers(start: Amount, m: Machine, agents: seq<Agent>, excluded: Option<Name>)
    returns (available: Amount, count: nat)
    ensures available == start.Minus(SumCounted(agents, m, excluded))
    ensures count == NumCounted(agents, m, excluded) + 1
  {
    available, count := start, 1;
    for i := 0 to |agents|
      invariant available == start.Minus(SumCounted(agents[..i], m, excluded))
      invariant count == 1 + NumCounted(agents[..i], m, excluded)
    {
      assert agents[..i + 1][..i] == agents[..i];
      if agents[i].machine == m.name && Some(agents[i].name) != excluded {
        available := available.Minus(agents[i].use);
        count := count + 1;
      }
    }
    assert agents[..|agents|] == agents;
  }

  method AddOwnUse(start: Amount, m: Machine, agents: seq<Agent>, excluded: Option<Name>) returns (published: Amount)
    ensures published == start.Plus(OwnUse(agents, m, excluded))
  {
    published := start;
    var i := 0;
    while i < |agents|
      invariant 0 <= i <= |agents| && published == start
      invariant OwnUse(agents, m, excluded) == OwnUse(agents[i..], m, excluded)
    {
      if agents[i].machine == m.name && Some(agents[i].name) == excluded {
        published := published.Plus(agents[i].use);
        return;
      }
      i := i + 1;
    }
  }

  method LowerEach(available: Amount, budget: Amount) returns (r: Amount)
    ensures r == available.Lower(budget)
  {
    r := available;
    if budget.cpu < r.cpu {
      r := r.(cpu := budget.cpu);
    }
    if budget.memory < r.memory {
      r := r.(memory := budget.memory);
    }
  }

  method SubtractOverhead(start: Amount, count: nat) returns (available: Amount)
    ensures available == start.Minus(Times(count, OVERHEAD))
  {
    available := start;
    for k := 0 to count
      invariant available == start.Minus(Times(k, OVERHEAD))
    {
      available := available.Minus(OVERHEAD);
    }
  }

  method AddReclaimed(free: Amount, pods: seq<Pod>) returns (headroom: Amount)
    ensures headroom == free.Plus(Reclaimed(pods))
  {
    headroom := free;
    for i := 0 to |pods|
      invariant headroom == free.Plus(Reclaimed(pods[..i]))
    {
      assert pods[..i + 1][..i] == pods[..i];
      headroom := AddPod(headroom, pods[i]);
    }
    assert pods[..|pods|] == pods;
  }

  method AddPod(start: Amount, p: Pod) returns (headroom: Amount)
    ensures headroom == start.Plus(PodUse(p))
  {
    headroom := start;
    if !p.onNode || p.finished || p.deleting {
      return;
    }
    headroom := AddRequests(headroom, p.requests);
  }

  method AddRequests(start: Amount, requests: seq<Amount>) returns (headroom: Amount)
    ensures headroom == start.Plus(SumAmounts(requests))
  {
    headroom := start;
    for j := 0 to |requests|
      invariant headroom == start.Plus(SumAmounts(requests[..j]))
    {
      assert requests[..j + 1][..j] == requests[..j];
      headroom := headroom.Plus(requests[j]);
    }
    assert requests[..|requests|] == requests;
  }

  method AgentResourceHeadroom(m: Machine, agents: seq<Agent>, excluded: Option<Name>, node: NodeView)
    returns (r: Result<Amount, HeadroomError>)
    ensures r == Headroom(m, agents, excluded, node)
  {
    if m.phase == NotLive {
      return Err(MachineNotLive);
    }
    var available := StartingAmount(m);
    if available.cpu == 0 || available.memory == 0 {
      return Err(CapacityUnknown);
    }
    var count: nat;
    available, count := SubtractOthers(available, m, agents, excluded);
    if m.phase == Live && m.published.Some? {
      var published := AddOwnUse(m.published.value, m, agents, excluded);
      available := LowerEach(available, published);
    }
    available := SubtractOverhead(available, count);
    if !m.nodeKnown {
      if m.phase == Live && !m.simulated {
        return Err(NodeUnknown);
      }
      return Ok(Clamp(available));
    }
    var nodeBudget := NodeBudget(excluded, node);
    if nodeBudget.Err? {
      return Err(nodeBudget.error);
    }
    available := LowerEach(available, nodeBudget.value);
    return Ok(Clamp(available));
  }

  method NodeBudget(excluded: Option<Name>, node: NodeView) returns (r: Result<Amount, HeadroomError>)
    ensures r == NodeLimit(excluded, node)
  {
    if node.free == None {
      return Err(NodeUnreadable);
    }
    var headroom := node.free.value;
    if excluded != None {
      if node.ownPods == None {
        return Err(NodeUnreadable);
      }
      headroom := AddReclaimed(headroom, node.ownPods.value);
    }
    return Ok(headroom.Minus(OVERHEAD));
  }
}
