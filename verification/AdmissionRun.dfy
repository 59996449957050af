/**
 The composed protocol: any number of callers acquire, read, check, write and
 release in any interleaving, with stale reads of the lease, lost replies, time
 passing, Agents deleted without the lease, and other Machines changing.
 */
module AdmissionRun {
  import opened Prelude
  import opened AgentCapacity
  import opened CapacityLease
  import opened Admission

  /** A create, or an edit of an existing Agent to the given final requests. */
  datatype Request = Create(name: Name, use: Amount) | Edit(name: Name, use: Amount)

  datatype Caller =
    | Trying
    | Seen(version: nat, at: Time)
    | Held(term: Time)
    | Read(term: Time, name: Name, use: Amount)
    | Checked(term: Time, request: Request, snapshot: Store)
    | Releasing
    | ReleaseSeen(version: nat)
    | Finished
  {
    /** Between a successful acquire and the start of the release. */
    predicate Inside() {
      Held? || Read? || Checked?
    }
  }

  datatype State = State(
    versions: seq<Lease>,
    clock: Time,
    store: Store,
    callers: map<Holder, Caller>)
  {
    function At(h: Holder): Caller {
      if h in callers then callers[h] else Trying
    }

    function Put(h: Holder, c: Caller): State {
      this.(callers := callers[h := c])
    }

    /** h is inside, and its lease has not yet expired. */
    predicate Owns(h: Holder) {
      At(h).Inside() && clock < At(h).term + LEASE_SECONDS
    }
  }

  /** A Machine's name and limit are fixed; everything else about it may differ at every check. */
  predicate SameMachine(m: Machine, machine: Name, limit: Amount) {
    m.name == machine && Limit(m) == limit
  }

  /** Which of the requests are validated, as the create and the resource edit do it. */
  predicate ValidChange(before: Option<Amount>, use: Amount) {
    && (before == None || use.cpu != before.value.cpu ==> ValidCpu(use.cpu))
    && (before == None || use.memory != before.value.memory ==> ValidMemory(use.memory))
  }

  predicate Increases(before: Amount, use: Amount) {
    use.cpu > before.cpu || use.memory > before.memory
  }

  datatype Step =
    | GetLease(h: Holder, seen: nat)
    | WriteLease(h: Holder, reply: Reply)
    | ReadAgent(h: Holder, name: Name)
    | Check(h: Holder, request: Request, m: Machine, list: seq<Agent>, node: NodeView)
    | Commit(h: Holder)
    | GiveUp(h: Holder)
    | GetForRelease(h: Holder, seen: nat)
    | WriteRelease(h: Holder, reply: Reply)
    | DeleteAgent(name: Name)
    | OtherMachine(name: Name, entry: Entry)
    | Tick(elapsed: nat)

  predicate Admits(before: Option<Amount>, request: Request, m: Machine, list: seq<Agent>, node: NodeView) {
    && ValidChange(before, request.use)
    && (before == None || Increases(before.value, request.use) ==>
          var r := Headroom(m, list, if request.Create? then None else Some(request.name), node);
          r.Ok? && request.use.Within(r.value))
  }

  predicate Enabled(s: State, step: Step, machine: Name, limit: Amount) {
    match step
    case GetLease(h, seen) => s.At(h).Trying? && seen <= |s.versions|
    case WriteLease(h, _) => s.At(h).Seen?
    case ReadAgent(h, name) => s.At(h).Held?
    case Check(h, request, m, list, _) =>
      && SameMachine(m, machine, limit) && Lists(list, s.store)
      && (if request.Create? then s.At(h).Held? else s.At(h).Read? && s.At(h).name == request.name)
    case Commit(h) => s.At(h).Checked? && s.clock < s.At(h).term + LEASE_SECONDS
    case GiveUp(h) => s.At(h).Inside()
    case GetForRelease(h, seen) => s.At(h).Releasing? && seen <= |s.versions|
    case WriteRelease(h, _) => s.At(h).ReleaseSeen?
    case DeleteAgent(_) => true
    case OtherMachine(name, entry) =>
      entry.machine != machine && entry.use.NonNegative() && (name in s.store ==> s.store[name].machine != machine)
    case Tick(_) => true
  }

  /** The stored Agents after the write of an admitted request. */
  function Written(store: Store, machine: Name, request: Request): Store {
    match request
    case Create(name, use) => if name in store then store else store[name := Entry(machine, use)]
    case Edit(name, use) =>
      if name in store && store[name].machine == machine then store[name := Entry(machine, use)] else store
  }

  function AfterPut(s: State, h: Holder, base: nat, l: Lease, reply: Reply, ok: Caller, stale: Caller,
                    failed: Caller): State {
    var (versions, answer) := PutOn(s.versions, base, l, reply);
    s.(versions := versions).Put(h, if answer == Accepted then ok else if answer == Stale then stale else failed)
  }

  function Next(s: State, step: Step, machine: Name, limit: Amount): State
    requires Enabled(s, step, machine, limit)
  {
    match step
    case GetLease(h, seen) =>
      if FreeAt(s.versions, seen, s.clock) then s.Put(h, Seen(seen, s.clock)) else s
    case WriteLease(h, reply) =>
      var c := s.At(h);
      AfterPut(s, h, c.version, Taken(h, c.at), reply, Held(c.at), Trying, Finished)
    case ReadAgent(h, name) =>
      if name in s.store && s.store[name].machine == machine then s.Put(h, Read(s.At(h).term, name, s.store[name].use))
      else s.Put(h, Releasing)
    case Check(h, request, m, list, node) =>
      var before := if request.Create? then None else Some(s.At(h).use);
      if Admits(before, request, m, list, node) then s.Put(h, Checked(s.At(h).term, request, s.store))
      else s.Put(h, Releasing)
    case Commit(h) => s.(store := Written(s.store, machine, s.At(h).request)).Put(h, Releasing)
    case GiveUp(h) => s.Put(h, Releasing)
    case GetForRelease(h, seen) =>
      if seen > 0 && s.versions[seen - 1].holder == Some(h) then s.Put(h, ReleaseSeen(seen)) else s.Put(h, Finished)
    case WriteRelease(h, reply) =>
      var base := s.At(h).version;
      if 0 < base <= |s.versions| then
        AfterPut(s, h, base, s.versions[base - 1].(holder := None), reply, Finished, Finished, Finished)
      else s.Put(h, Finished)
    case DeleteAgent(name) => s.(store := s.store - {name})
    case OtherMachine(name, entry) => s.(store := s.store[name := entry])
    case Tick(elapsed) => s.(clock := s.clock + elapsed)
  }

  // ---- the lease protocol ----

  predicate CallerOk(s: State, h: Holder) {
    var c := s.At(h);
    && (c.Seen? ==> c.at <= s.clock && c.version <= |s.versions| && FreeAt(s.versions, c.version, c.at))
    && (c.ReleaseSeen? ==> 0 < c.version <= |s.versions| && s.versions[c.version - 1].holder == Some(h))
    && (s.Owns(h) ==> s.versions != [] && s.versions[|s.versions| - 1] == Taken(h, c.term))
  }

  ghost predicate LeaseInvariant(s: State) {
    forall h :: CallerOk(s, h)
  }

  /** At most one caller holds an unreleased, unexpired term. */
  lemma OneOwner(s: State, g: Holder, h: Holder)
    requires LeaseInvariant(s) && s.Owns(g) && s.Owns(h)
    ensures g == h
  {
    assert CallerOk(s, g) && CallerOk(s, h);
  }

  /** Whoever writes over a free version does so after every live term has ended. */
  lemma TakeoverWaits(s: State, h: Holder, g: Holder)
    requires LeaseInvariant(s) && s.At(h).Seen? && s.At(h).version == |s.versions|
    ensures !s.Owns(g)
  {
    assert CallerOk(s, g) && CallerOk(s, h);
  }

  /** A release only ever clears its own holder's version, and then nobody's term is live. */
  lemma ReleaseIsOwn(s: State, h: Holder, g: Holder)
    requires LeaseInvariant(s) && s.At(h).ReleaseSeen? && s.At(h).version == |s.versions|
    ensures s.versions != [] && s.versions[|s.versions| - 1].holder == Some(h) && !s.Owns(g)
  {
    assert CallerOk(s, g) && CallerOk(s, h);
  }

  lemma StepKeepsLease(s: State, step: Step, machine: Name, limit: Amount)
    requires LeaseInvariant(s) && Enabled(s, step, machine, limit)
    ensures LeaseInvariant(Next(s, step, machine, limit))
  {
    forall g ensures CallerOk(Next(s, step, machine, limit), g) {
      StepKeepsCaller(s, step, machine, limit, g);
    }
  }

  lemma TakingKeepsCaller(s: State, step: Step, machine: Name, limit: Amount, g: Holder)
    requires LeaseInvariant(s) && Enabled(s, step, machine, limit) && step.WriteLease?
    ensures CallerOk(Next(s, step, machine, limit), g)
  {
    assert CallerOk(s, g) && CallerOk(s, step.h);
    if s.At(step.h).version == |s.versions| {
      TakeoverWaits(s, step.h, g);
    }
  }

  lemma ReleasingKeepsCaller(s: State, step: Step, machine: Name, limit: Amount, g: Holder)
    requires LeaseInvariant(s) && Enabled(s, step, machine, limit) && step.WriteRelease?
    ensures CallerOk(Next(s, step, machine, limit), g)
  {
    assert CallerOk(s, g) && CallerOk(s, step.h);
    if s.At(step.h).version == |s.versions| {
      ReleaseIsOwn(s, step.h, g);
    }
  }

  lemma StepKeepsCaller(s: State, step: Step, machine: Name, limit: Amount, g: Holder)
    requires LeaseInvariant(s) && Enabled(s, step, machine, limit)
    ensures CallerOk(Next(s, step, machine, limit), g)
  {
    if step.WriteLease? {
      TakingKeepsCaller(s, step, machine, limit, g);
    } else if step.WriteRelease? {
      ReleasingKeepsCaller(s, step, machine, limit, g);
    } else {
      assert CallerOk(s, g);
    }
  }

  /**
   The steps are the code's: an attempt is a read and a write with anything done
   by others in between, and leaves the same versions and the same caller.
   */
  lemma AttemptIsTwoSteps(s: State, t: State, h: Holder, a: Attempt, noise: seq<Lease>, machine: Name, limit: Amount)
    requires s.At(h).Trying? && s.clock == a.now
    requires t.versions == s.versions + noise
    requires t.At(h) == Next(s, GetLease(h, BaseOf(s.versions, a.behind)), machine, limit).At(h)
    ensures var (versions, reply) := Attempted(s.versions, h, a, noise);
            if reply.None? then t.versions == versions && t.At(h) == Trying
            else
              && t.At(h).Seen?
              && var after := Next(t, WriteLease(h, a.reply), machine, limit);
              && after.versions == versions
              && after.At(h) == (if reply.value == Accepted then Held(a.now)
                                 else if reply.value == Stale then Trying else Finished)
  {
  }

  lemma ReleaseIsTwoSteps(s: State, t: State, h: Holder, behind: nat, noise: seq<Lease>, reply: Reply, machine: Name,
                          limit: Amount)
    requires s.At(h).Releasing? && t.versions == s.versions + noise
    requires t.At(h) == Next(s, GetForRelease(h, BaseOf(s.versions, behind)), machine, limit).At(h)
    ensures var versions := Released(s.versions, h, behind, noise, reply);
            if t.At(h).ReleaseSeen? then
              var after := Next(t, WriteRelease(h, reply), machine, limit);
              after.versions == versions && after.At(h) == Finished
            else t.versions == versions && t.At(h) == Finished
  {
    var base := BaseOf(s.versions, behind);
    assert base > 0 ==> t.versions[base - 1] == s.versions[base - 1];
  }

  // ---- no overcommit ----

  /** What an owner has read or checked is still good. */
  ghost predicate Ready(s: State, h: Holder, machine: Name, limit: Amount) {
    var c := s.At(h);
    && (c.Read? && c.name in On(s.store, machine) ==> s.store[c.name].use == c.use)
    && (c.Checked? ==>
          && AllPositive(c.snapshot) && Part(On(s.store, machine), On(c.snapshot, machine))
          && (c.request.Create? || c.request.name in On(s.store, machine) ==>
                c.request.use.NonNegative() && RoomFor(c.snapshot, machine, c.request.name, c.request.use, limit)))
  }

  ghost predicate StoreInvariant(s: State, machine: Name, limit: Amount) {
    && LeaseInvariant(s)
    && AllPositive(s.store) && Fits(s.store, machine, limit)
    && (forall h :: s.Owns(h) ==> Ready(s, h, machine, limit))
  }

  lemma ValidIsPositive(before: Option<Amount>, use: Amount)
    requires ValidChange(before, use)
    ensures before == None || use.cpu != before.value.cpu ==> use.cpu > 0
    ensures before == None || use.memory != before.value.memory ==> use.memory > 0
  {
  }

  /** A create that passes the check has room beside all that is stored. */
  lemma CreateHasRoom(store: Store, machine: Name, limit: Amount, request: Request, m: Machine, list: seq<Agent>,
                      node: NodeView)
    requires SameMachine(m, machine, limit) && Lists(list, store) && AllPositive(store)
    requires request.Create? && Admits(None, request, m, list, node)
    ensures request.use.NonNegative() && RoomFor(store, machine, request.name, request.use, limit)
  {
    ValidIsPositive(None, request.use);
    HeadroomLeavesRoom(m, list, store, None, node, request.use);
    UsedGrows(Others(store, machine, Some(request.name)), Others(store, machine, None));
  }

  /** An edit that passes the check has room, whether it grows, shrinks, or does both. */
  lemma EditHasRoom(store: Store, machine: Name, limit: Amount, request: Request, m: Machine, list: seq<Agent>,
                    node: NodeView)
    requires SameMachine(m, machine, limit) && Lists(list, store) && AllPositive(store) && Fits(store, machine, limit)
    requires request.Edit? && request.name in On(store, machine)
    requires Admits(Some(store[request.name].use), request, m, list, node)
    ensures request.use.NonNegative() && RoomFor(store, machine, request.name, request.use, limit)
  {
    var before := store[request.name].use;
    ValidIsPositive(Some(before), request.use);
    UsedSplit(On(store, machine), request.name);
    assert On(store, machine) - {request.name} == Others(store, machine, Some(request.name));
    if Increases(before, request.use) {
      HeadroomLeavesRoom(m, list, store, Some(request.name), node, request.use);
    }
  }

  /**
   A create adds its Agent unless the name is taken; an edit changes its Agent, if it is still
   there, and nothing else.
   */
  lemma WritesExactly(store: Store, machine: Name, request: Request, n: Name)
    ensures var after := Written(store, machine, request);
            && (n != request.name ==> (n in after <==> n in store) && (n in store ==> after[n] == store[n]))
            && (request.Create? ==> request.name in after)
            && (request.Create? && request.name !in store ==> after[request.name] == Entry(machine, request.use))
            && (request.Create? && request.name in store ==> after == store)
            && (request.Edit? ==> (request.name in after <==> request.name in store))
            && (request.Edit? && request.name in On(store, machine) ==>
                  after[request.name] == Entry(machine, request.use))
            && (request.Edit? && request.name !in On(store, machine) ==> after == store)
  {
  }

  /** Writing an Agent that has room keeps the Machine within its limit. */
  lemma WriteFits(store: Store, snapshot: Store, machine: Name, limit: Amount, request: Request)
    requires AllPositive(snapshot) && Part(On(store, machine), On(snapshot, machine))
    requires request.Create? || request.name in On(store, machine) ==>
               request.use.NonNegative() && RoomFor(snapshot, machine, request.name, request.use, limit)
    requires AllPositive(store) && Fits(store, machine, limit)
    ensures AllPositive(Written(store, machine, request)) && Fits(Written(store, machine, request), machine, limit)
  {
    var after := Written(store, machine, request);
    if after != store {
      var uses := On(after, machine);
      UsedSplit(uses, request.name);
      forall n | n in uses - {request.name}
        ensures n in Others(snapshot, machine, Some(request.name)) && uses[n] == snapshot[n].use {
        assert n in On(store, machine) && n in On(snapshot, machine);
      }
      UsedGrows(uses - {request.name}, Others(snapshot, machine, Some(request.name)));
    }
  }

  lemma CheckKeepsStore(s: State, step: Step, machine: Name, limit: Amount)
    requires StoreInvariant(s, machine, limit) && Enabled(s, step, machine, limit) && step.Check?
    requires s.Owns(step.h)
    ensures Ready(Next(s, step, machine, limit), step.h, machine, limit)
  {
    assert Ready(s, step.h, machine, limit);
    var before := if step.request.Create? then None else Some(s.At(step.h).use);
    if Admits(before, step.request, step.m, step.list, step.node) {
      if step.request.Create? {
        CreateHasRoom(s.store, machine, limit, step.request, step.m, step.list, step.node);
      } else if step.request.name in On(s.store, machine) {
        EditHasRoom(s.store, machine, limit, step.request, step.m, step.list, step.node);
      }
    }
  }

  lemma CommitKeepsStore(s: State, h: Holder, machine: Name, limit: Amount)
    requires StoreInvariant(s, machine, limit) && Enabled(s, Commit(h), machine, limit)
    ensures StoreInvariant(Next(s, Commit(h), machine, limit), machine, limit)
  {
    assert s.Owns(h) && Ready(s, h, machine, limit);
    WriteFits(s.store, s.At(h).snapshot, machine, limit, s.At(h).request);
    StepKeepsLease(s, Commit(h), machine, limit);
    var after := Next(s, Commit(h), machine, limit);
    forall g | after.Owns(g) ensures Ready(after, g, machine, limit) {
      assert s.Owns(g);
      OneOwner(s, g, h);
    }
  }

  /** Deleting an Agent, or writing one on another Machine. */
  lemma OutsideKeepsStore(s: State, step: Step, machine: Name, limit: Amount)
    requires StoreInvariant(s, machine, limit) && Enabled(s, step, machine, limit)
    requires step.DeleteAgent? || step.OtherMachine?
    ensures StoreInvariant(Next(s, step, machine, limit), machine, limit)
  {
    var after := Next(s, step, machine, limit);
    StepKeepsLease(s, step, machine, limit);
    UsedGrows(On(after.store, machine), On(s.store, machine));
    forall g | after.Owns(g) ensures Ready(after, g, machine, limit) {
      assert s.Owns(g) && Ready(s, g, machine, limit);
    }
  }

  lemma StepKeepsStore(s: State, step: Step, machine: Name, limit: Amount)
    requires StoreInvariant(s, machine, limit) && Enabled(s, step, machine, limit)
    ensures StoreInvariant(Next(s, step, machine, limit), machine, limit)
  {
    if step.Commit? {
      CommitKeepsStore(s, step.h, machine, limit);
    } else if step.DeleteAgent? || step.OtherMachine? {
      OutsideKeepsStore(s, step, machine, limit);
    } else {
      StepKeepsLease(s, step, machine, limit);
      var after := Next(s, step, machine, limit);
      forall g | after.Owns(g) ensures Ready(after, g, machine, limit) {
        StepKeepsReady(s, step, machine, limit, g);
      }
    }
  }

  lemma ReadyCarriesOver(s: State, after: State, g: Holder, machine: Name, limit: Amount)
    requires Ready(s, g, machine, limit) && after.At(g) == s.At(g) && after.store == s.store
    ensures Ready(after, g, machine, limit)
  {
  }

  /** The steps that leave the stored Agents alone. */
  lemma StepKeepsReady(s: State, step: Step, machine: Name, limit: Amount, g: Holder)
    requires StoreInvariant(s, machine, limit) && Enabled(s, step, machine, limit)
    requires !step.Commit? && !step.DeleteAgent? && !step.OtherMachine?
    requires Next(s, step, machine, limit).Owns(g)
    ensures Next(s, step, machine, limit).store == s.store
    ensures Ready(Next(s, step, machine, limit), g, machine, limit)
  {
    var after := Next(s, step, machine, limit);
    if step.Tick? || step.h != g {
      assert after.At(g) == s.At(g) && s.Owns(g);
      ReadyCarriesOver(s, after, g, machine, limit);
    } else if step.Check? {
      CheckKeepsStore(s, step, machine, limit);
    } else {
      assert after.At(g).Held? || after.At(g).Read?;
    }
  }

  // ---- runs ----

  ghost predicate Initial(s: State, machine: Name, limit: Amount) {
    s.callers == map[] && AllPositive(s.store) && Fits(s.store, machine, limit)
  }

  ghost predicate IsRun(ss: seq<State>, steps: seq<Step>, machine: Name, limit: Amount) {
    && |ss| == |steps| + 1 && Initial(ss[0], machine, limit)
    && (forall i :: 0 <= i < |steps| ==>
                      Enabled(ss[i], steps[i], machine, limit) && ss[i + 1] == Next(ss[i], steps[i], machine, limit))
  }

  lemma {:induction false} RunKeepsStore(ss: seq<State>, steps: seq<Step>, machine: Name, limit: Amount, i: nat)
    requires IsRun(ss, steps, machine, limit) && i < |ss|
    ensures StoreInvariant(ss[i], machine, limit)
  {
    if i > 0 {
      RunKeepsStore(ss, steps, machine, limit, i - 1);
      StepKeepsStore(ss[i - 1], steps[i - 1], machine, limit);
    }
  }

  /** In every run the requests and sidecar allowances of a Machine's Agents stay within its limit. */
  lemma NoOvercommit(ss: seq<State>, steps: seq<Step>, machine: Name, limit: Amount)
    requires IsRun(ss, steps, machine, limit)
    ensures forall i :: 0 <= i < |ss| ==> Fits(ss[i].store, machine, limit)
  {
    forall i | 0 <= i < |ss| ensures Fits(ss[i].store, machine, limit) {
      RunKeepsStore(ss, steps, machine, limit, i);
    }
  }

  /** In every run at most one caller is inside with an unexpired term. */
  lemma MutualExclusion(ss: seq<State>, steps: seq<Step>, machine: Name, limit: Amount, i: nat, g: Holder, h: Holder)
    requires IsRun(ss, steps, machine, limit) && i < |ss|
    requires ss[i].Owns(g) && ss[i].Owns(h)
    ensures g == h
  {
    RunKeepsStore(ss, steps, machine, limit, i);
    OneOwner(ss[i], g, h);
  }
}
