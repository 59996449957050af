/**
 The adapter itself, in the shape of the code: it reads both groups, branches,
 and calls the cloud at most once. The methods are proved to do exactly what
 `Decide` says and `Effect` applies, whatever the cloud answers.
 */
module EksAdapterImpl {
  import opened Prelude
  import opened Cloud
  import opened EksPair

  /** The node groups of one cluster, changed only through these three calls. */
  class NodeGroups {
    var spot: Group
    var reliable: Group
    /** How many calls have been made. */
    ghost var calls: nat

    constructor ()
      ensures Now() == Pair(Absent, Absent) && calls == 0
    {
      spot, reliable := Absent, Absent;
      calls := 0;
    }

    function Now(): Pair
      reads this`spot, this`reliable
    {
      Pair(spot, reliable)
    }

    method CreateNodegroup(slot: Slot, size: int, oc: Outcome) returns (err: CallError)
      modifies this
      ensures err == oc.error && calls == old(calls) + 1
      ensures Now() == if oc.applied &&
                          old(Now().At(slot)).Absent? then old(Now()).With(slot, Created(size)) else old(Now())
    {
      calls := calls + 1;
      if oc.applied {
        if slot == Spot && spot.Absent? {
          spot := Present(Some(size), NotActive, true, true);
        } else if slot == OnDemand && reliable.Absent? {
          reliable := Present(Some(size), NotActive, true, true);
        }
      }
      err := oc.error;
    }

    method UpdateNodegroupConfig(slot: Slot, size: int, oc: Outcome) returns (err: CallError)
      modifies this
      ensures err == oc.error && calls == old(calls) + 1
      ensures Now() == if oc.applied then old(Now()).With(slot, Resized(old(Now()).At(slot), size)) else old(Now())
    {
      calls := calls + 1;
      if oc.applied {
        if slot == Spot && spot.Present? {
          spot := spot.(desiredSize := Some(size));
        } else if slot == OnDemand && reliable.Present? {
          reliable := reliable.(desiredSize := Some(size));
        }
      }
      err := oc.error;
    }

    method DeleteNodegroup(slot: Slot, oc: Outcome) returns (err: CallError)
      modifies this
      ensures err == oc.error && calls == old(calls) + 1
      ensures Now() == if oc.applied then old(Now()).With(slot, Absent) else old(Now())
    {
      calls := calls + 1;
      if oc.applied {
        if slot == Spot {
          spot := Absent;
        } else {
          reliable := Absent;
        }
      }
      err := oc.error;
    }
  }

  /** A report makes no call, every other plan exactly one. */
  function Calls(plan: Plan): nat {
    if plan.Report? then 0 else 1
  }

  class EksAdapter {
    const client: NodeGroups
    const fallbackThreshold: Time

    constructor (client: NodeGroups, fallbackThreshold: Time)
      ensures this.client == client && this.fallbackThreshold == fallbackThreshold
    {
      this.client := client;
      this.fallbackThreshold := fallbackThreshold;
    }

    method ResizePair(d: Desired, slot: Slot, size: int, effective: Class, oc: Outcome)
      returns (r: Result<Observation, CallError>)
      modifies client
      ensures var plan := ResizeTo(d, slot, size, effective);
              && client.Now() == Effect(plan, old(client.Now()), oc) && r == Answer(plan, oc.error)
              && client.calls == old(client.calls) + Calls(plan)
    {
      var err := client.UpdateNodegroupConfig(slot, size, oc);
      if err != NoError && err != Conflict {
        return Err(err);
      }
      return Ok(PairObservation(d, Recovering, Repairing, effective));
    }

    method DeletePair(d: Desired, oc: Outcome) returns (r: Result<Observation, CallError>)
      modifies client
      ensures var plan := DecideDeleted(d, old(client.Now()));
              && client.Now() == Effect(plan, old(client.Now()), oc) && r == Answer(plan, oc.error)
              && client.calls == old(client.calls) + Calls(plan)
    {
      var slots, groups := [Spot, OnDemand], [client.spot, client.reliable];
      var i := 0;
      while i < 2
        invariant 0 <= i <= 2
        invariant client.Now() == old(client.Now())
        invariant forall j :: 0 <= j < i ==> groups[j].Absent?
      {
        var g := groups[i];
        assert i == 1 ==> groups[0].Absent?;
        if g.Present? {
          if !g.owned {
            return Ok(FailedPair(d));
          }
          if GroupSize(g) != 0 {
            r := ResizePair(d, slots[i], 0, Unnamed, oc);
            return;
          }
          if !d.attachmentObserved || d.attachedNodes > 0 {
            return Ok(PairObservation(d, Recovering, Stopping, Unnamed));
          }
          var err := client.DeleteNodegroup(slots[i], oc);
          if err != NoError && err != NotFound && err != Conflict {
            return Err(err);
          }
          return Ok(PairObservation(d, Recovering, Stopping, Unnamed));
        }
        i := i + 1;
      }
      assert groups[0].Absent? && groups[1].Absent?;
      return Ok(Observation(Gone, DeletedReason, Unnamed, NoNote, Stored(None, None, None, None)));
    }

    method ReconcileCostOptimized(d: Desired, now: Time, oc: Outcome) returns (r: Result<Observation, CallError>)
      modifies client
      ensures var plan := Decide(d, old(client.Now()), now, fallbackThreshold);
              && client.Now() == Effect(plan, old(client.Now()), oc) && r == Answer(plan, oc.error)
              && client.calls == old(client.calls) + Calls(plan)
    {
      var spot, reliable := client.spot, client.reliable;
      if d.intent == Deleted {
        r := DeletePair(d, oc);
        return;
      }
      if spot.Absent? {
        r := CreateGroup(d, Spot, 1, oc);
        return;
      }
      if reliable.Absent? {
        r := CreateGroup(d, OnDemand, 0, oc);
        return;
      }
      if !spot.owned || !spot.rightClass || !reliable.owned || !reliable.rightClass {
        return Ok(FailedPair(d));
      }
      if d.intent == Offline {
        if GroupSize(spot) != 0 {
          r := ResizePair(d, Spot, 0, CostOptimized, oc);
          return;
        }
        if GroupSize(reliable) != 0 {
          r := ResizePair(d, OnDemand, 0, Reliable, oc);
          return;
        }
        if d.attachmentObserved && d.attachedNodes == 0 {
          return Ok(PairObservation(d, Stopped, StoppedReason, CostOptimized));
        }
        return Ok(PairObservation(d, Recovering, Stopping, CostOptimized));
      }
      if d.request != None && d.request != d.stored.retryObserved {
        r := Retry(d, now, oc);
        return;
      }
      r := SteadyOrFallback(d, now, oc);
    }

    method CreateGroup(d: Desired, slot: Slot, size: int, oc: Outcome) returns (r: Result<Observation, CallError>)
      modifies client
      ensures var plan := Create(slot, size, PairObservation(d, Pending, Provisioning, CostOptimized));
              && client.Now() == Effect(plan, old(client.Now()), oc) && r == Answer(plan, oc.error)
              && client.calls == old(client.calls) + Calls(plan)
    {
      var err := client.CreateNodegroup(slot, size, oc);
      if err != NoError && err != Conflict {
        return Err(err);
      }
      return Ok(PairObservation(d, Pending, Provisioning, CostOptimized));
    }

    /** The manual-retry part of the reconcile. */
    method Retry(d: Desired, now: Time, oc: Outcome) returns (r: Result<Observation, CallError>)
      requires client.spot.Present? && client.reliable.Present?
      modifies client
      ensures var plan := DecideRetry(d, old(client.Now()), now, fallbackThreshold);
              && client.Now() == Effect(plan, old(client.Now()), oc) && r == Answer(plan, oc.error)
              && client.calls == old(client.calls) + Calls(plan)
    {
      var spot, reliable := client.spot, client.reliable;
      var o: Observation;
      if d.stored.retrySince == None {
        o := PairObservation(d, Available, Ready, Reliable);
        o := o.(stored := o.stored.(retrySince := Some(now)));
        return Ok(o);
      }
      if now - d.stored.retrySince.value >= fallbackThreshold {
        if GroupSize(spot) != 0 {
          r := ResizePair(d, Spot, 0, Reliable, oc);
          return;
        }
        if GroupSize(reliable) == 1 {
          o := PairObservation(d, Recovering, Repairing, Reliable);
          o := o.(note := RetryUnavailable, stored := o.stored.(retryObserved := d.request, retrySince := None));
          if d.attachmentObserved && d.attachedNodes > 0 && reliable.status == Active {
            o := o.(state := Available, reason := Ready);
          }
          return Ok(o);
        }
        if d.attachmentObserved && d.attachedNodes > 0 {
          return Ok(PairObservation(d, Recovering, Repairing, Reliable));
        }
        r := ResizePair(d, OnDemand, 1, Reliable, oc);
        return;
      }
      if GroupSize(reliable) != 0 {
        r := ResizePair(d, OnDemand, 0, Reliable, oc);
        return;
      }
      if GroupSize(spot) == 1 && d.attachmentObserved && d.attachedNodes > 0 && spot.status == Active {
        o := PairObservation(d, Available, Ready, CostOptimized);
        o := o.(note := NoNote,
        stored := Stored(None, None, d.request, None));
        return Ok(o);
      }
      if d.attachmentObserved && d.attachedNodes > 0 {
        return Ok(PairObservation(d, Recovering, Repairing, Reliable));
      }
      if GroupSize(spot) != 1 {
        r := ResizePair(d, Spot, 1, Reliable, oc);
        return;
      }
      return Ok(PairObservation(d, Recovering, Repairing, Reliable));
    }

    /** Steady operation on Spot and the automatic fallback. */
    method SteadyOrFallback(d: Desired, now: Time, oc: Outcome) returns (r: Result<Observation, CallError>)
      requires client.spot.Present? && client.reliable.Present?
      modifies client
      ensures var plan := DecideOnline(d, old(client.Now()), now, fallbackThreshold);
              && client.Now() == Effect(plan, old(client.Now()), oc) && r == Answer(plan, oc.error)
              && client.calls == old(client.calls) + Calls(plan)
    {
      var spot, reliable := client.spot, client.reliable;
      var o: Observation;
      if GroupSize(reliable) == 1 {
        o := PairObservation(d, Recovering, Repairing, Reliable);
        if o.stored.fallbackSince == None {
          o := o.(stored := o.stored.(fallbackSince := Some(now)));
        }
        o := o.(note := UnavailableForThreshold);
        if d.attachmentObserved && d.attachedNodes > 0 && reliable.status == Active {
          o := o.(state := Available, reason := Ready);
        }
        return Ok(o);
      }
      if d.stored.fallbackSince != None {
        if d.attachmentObserved && d.attachedNodes > 0 {
          o := PairObservation(d, Recovering, Repairing, CostOptimized);
          return Ok(o.(note := UnavailableForThreshold));
        }
        r := ResizePair(d, OnDemand, 1, Reliable, oc);
        return;
      }
      if d.attachmentObserved && d.attachedNodes > 0 && spot.status == Active {
        o := PairObservation(d, Available, Ready, CostOptimized);
        o := o.(note := NoNote, stored := Stored(None, None, o.stored.retryObserved, None));
        return Ok(o);
      }
      var unavailable := d.stored.unavailableSince;
      if unavailable == None {
        unavailable := Some(now);
      }
      if now - unavailable.value < fallbackThreshold {
        o := PairObservation(d, Recovering, Interrupted, CostOptimized);
        return Ok(o.(stored := o.stored.(unavailableSince := unavailable)));
      }
      if GroupSize(spot) != 0 {
        r := ResizePair(d, Spot, 0, CostOptimized, oc);
        if r.Ok? {
          o := r.value;
          o := o.(note := UnavailableForThreshold,
          stored := o.stored.(unavailableSince := unavailable, fallbackSince := Some(now)));
          r := Ok(o);
        }
        return;
      }
      if d.attachmentObserved && d.attachedNodes > 0 {
        o := PairObservation(d, Recovering, Repairing, CostOptimized);
        return Ok(o.(stored := o.stored.(unavailableSince := unavailable)));
      }
      if GroupSize(reliable) != 1 {
        r := ResizePair(d, OnDemand, 1, Reliable, oc);
        return;
      }
      o := PairObservation(d, Recovering, Repairing, Reliable);
      return Ok(o.(note := UnavailableForThreshold,
                stored := o.stored.(unavailableSince := unavailable, fallbackSince := Some(now))));
    }
  }
}
