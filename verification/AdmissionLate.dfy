/**
 Why the write must land within the lease's term: a caller that is held up past
 its expiry, between the check and the write, overcommits the Machine.
 */
module AdmissionLate {
  import opened Prelude
  import opened AgentCapacity
  import opened CapacityLease
  import opened Admission
  import opened AdmissionRun

  ghost predicate Reached(s: State, machine: Name, limit: Amount) {
    exists ss, steps :: IsRun(ss, steps, machine, limit) && ss[|steps|] == s
  }

  lemma ReachedStart(s: State, machine: Name, limit: Amount)
    requires Initial(s, machine, limit)
    ensures Reached(s, machine, limit)
  {
    var steps: seq<Step> := [];
    assert IsRun([s], steps, machine, limit) && [s][|steps|] == s;
  }

  lemma ReachedNext(s: State, step: Step, machine: Name, limit: Amount)
    requires Reached(s, machine, limit) && Enabled(s, step, machine, limit)
    ensures Reached(Next(s, step, machine, limit), machine, limit)
  {
    var ss, steps :| IsRun(ss, steps, machine, limit) && ss[|steps|] == s;
    var after := Next(s, step, machine, limit);
    var more, all := ss + [after], steps + [step];
    forall i | 0 <= i < |all|
      ensures Enabled(more[i], all[i], machine, limit) && more[i + 1] == Next(more[i], all[i], machine, limit)
    {
      if i < |steps| {
        assert more[i] == ss[i] && more[i + 1] == ss[i + 1] && all[i] == steps[i];
      }
    }
    assert IsRun(more, all, machine, limit) && more[|all|] == after;
  }

  /** A Machine with room for exactly one Agent of the given size. */
  function Small(machine: Name, use: Amount): Machine {
    Machine(machine, use.Plus(OVERHEAD), Unset, None, None, None, false, false)
  }

  /** On the empty Machine such an Agent passes the check. */
  lemma SmallAdmits(machine: Name, name: Name, use: Amount)
    requires ValidCpu(use.cpu) && ValidMemory(use.memory)
    ensures Limit(Small(machine, use)) == use.Plus(OVERHEAD)
    ensures Admits(None, Create(name, use), Small(machine, use), [], NodeView(None, None))
  {
    var m := Small(machine, use);
    assert Times(1, OVERHEAD) == Times(0, OVERHEAD).Plus(OVERHEAD) == OVERHEAD;
    assert Reserved(m, [], None) == use;
  }

  lemma ReachesSeen(s: State, h: Holder, machine: Name, limit: Amount)
    requires Reached(s, machine, limit) && s.At(h).Trying? && FreeAt(s.versions, |s.versions|, s.clock)
    ensures Reached(s.Put(h, Seen(|s.versions|, s.clock)), machine, limit)
  {
    ReachedNext(s, GetLease(h, |s.versions|), machine, limit);
  }

  lemma ReachesHeld(s: State, h: Holder, machine: Name, limit: Amount)
    requires Reached(s, machine, limit) && s.At(h).Trying? && FreeAt(s.versions, |s.versions|, s.clock)
    ensures Reached(s.(versions := s.versions + [Taken(h, s.clock)]).Put(h, Held(s.clock)), machine, limit)
  {
    ReachesSeen(s, h, machine, limit);
    var seen := s.Put(h, Seen(|s.versions|, s.clock));
    ReachedNext(seen, WriteLease(h, Accepted), machine, limit);
    assert seen.callers[h := Held(s.clock)] == s.callers[h := Held(s.clock)];
  }

  /** What h has done when it has acquired a free lease and checked its create on the empty Machine. */
  function CheckedIn(s: State, h: Holder, name: Name, use: Amount): State {
    s.(versions := s.versions + [Taken(h, s.clock)]).Put(h, Checked(s.clock, Create(name, use), map[]))
  }

  lemma ReachesChecked(s: State, h: Holder, name: Name, use: Amount, machine: Name)
    requires ValidCpu(use.cpu) && ValidMemory(use.memory)
    requires Reached(s, machine, use.Plus(OVERHEAD)) && s.At(h).Trying? && s.store == map[]
    requires FreeAt(s.versions, |s.versions|, s.clock)
    ensures Reached(CheckedIn(s, h, name, use), machine, use.Plus(OVERHEAD))
  {
    var limit := use.Plus(OVERHEAD);
    ReachesHeld(s, h, machine, limit);
    var held := s.(versions := s.versions + [Taken(h, s.clock)]).Put(h, Held(s.clock));
    SmallAdmits(machine, name, use);
    var check := Check(h, Create(name, use), Small(machine, use), [], NodeView(None, None));
    ReachedNext(held, check, machine, limit);
    assert Next(held, check, machine, limit).callers == CheckedIn(s, h, name, use).callers;
  }

  /**
   For every size an Agent may have there is a run at whose end a caller has
   checked its create but let its term expire, another has since committed, and
   the late write would leave the Machine over its limit.
   */
  lemma LateWriteOvercommits(use: Amount, machine: Name, g: Holder, h: Holder, a: Name, b: Name, t: Time)
    requires ValidCpu(use.cpu) && ValidMemory(use.memory) && g != h && a != b
    ensures exists s :: Reached(s, machine, use.Plus(OVERHEAD)) && s.At(g).Checked? && !s.Owns(g) &&
                        !Fits(Written(s.store, machine, s.At(g).request), machine, use.Plus(OVERHEAD))
  {
    var limit := use.Plus(OVERHEAD);
    var start := State([], t, map[], map[]);
    assert On(start.store, machine) == map[];
    ReachedStart(start, machine, limit);
    ReachesChecked(start, g, a, use, machine);
    var late := CheckedIn(start, g, a, use);
    ReachedNext(late, Tick(LEASE_SECONDS), machine, limit);
    var expired := late.(clock := t + LEASE_SECONDS);
    var s := SecondCommits(expired, h, b, use, machine);
    TwoDoNotFit(use, machine, a, b);
    assert s.At(g) == late.At(g) == Checked(t, Create(a, use), map[]);
    assert Written(s.store, machine, Create(a, use)) == map[b := Entry(machine, use), a := Entry(machine, use)];
  }

  /** Another caller takes the free lease and writes its Agent. */
  lemma SecondCommits(expired: State, h: Holder, b: Name, use: Amount, machine: Name) returns (s: State)
    requires ValidCpu(use.cpu) && ValidMemory(use.memory)
    requires Reached(expired, machine, use.Plus(OVERHEAD)) && expired.At(h).Trying? && expired.store == map[]
    requires FreeAt(expired.versions, |expired.versions|, expired.clock)
    ensures Reached(s, machine, use.Plus(OVERHEAD)) && s.store == map[b := Entry(machine, use)] &&
            s.clock == expired.clock
    ensures forall g :: g != h ==> s.At(g) == expired.At(g)
  {
    ReachesChecked(expired, h, b, use, machine);
    var ready := CheckedIn(expired, h, b, use);
    ReachedNext(ready, Commit(h), machine, use.Plus(OVERHEAD));
    s := Next(ready, Commit(h), machine, use.Plus(OVERHEAD));
  }

  lemma TwoDoNotFit(use: Amount, machine: Name, a: Name, b: Name)
    requires ValidCpu(use.cpu) && ValidMemory(use.memory) && a != b
    ensures !Fits(map[b := Entry(machine, use), a := Entry(machine, use)], machine, use.Plus(OVERHEAD))
  {
    var uses := On(map[b := Entry(machine, use), a := Entry(machine, use)], machine);
    assert uses == map[b := use, a := use];
    UsedSplit(uses, a);
    assert uses - {a} == map[b := use];
    UsedSplit(map[b := use], b);
    assert map[b := use] - {b} == map[];
  }
}
