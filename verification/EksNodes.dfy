/** Nodes of the two groups never serve the Machine at the same time. */
module EksNodes {
  import opened Prelude
  import opened Cloud
  import opened EksPair
  import opened EksRun

  predicate NodeInvariant(w: World) {
    && SizeInvariant(w)
    && (w.spotNodes == 0 || w.reliableNodes == 0)
    && (GroupSize(w.pair.spot) == 1 ==> w.reliableNodes == 0)
    && (GroupSize(w.pair.reliable) == 1 ==> w.spotNodes == 0)
    && (w.intent != Deleted && w.pair.spot.Absent? ==> w.Nodes() == 0)
    && (w.intent != Deleted && w.pair.reliable.Absent? ==> w.reliableNodes == 0)
  }

  ghost predicate IsNodeRun(ws: seq<World>, steps: seq<Step>, threshold: Time) {
    IsRun(ws, steps, threshold) && forall i :: 0 <= i < |steps| ==> NodesBehave(ws[i], steps[i])
  }

  /** Whether the plan asks for a Node through this slot. */
  predicate Grows(plan: Plan, slot: Slot) {
    (plan.Create? || plan.Resize?) && plan.slot == slot && plan.size == 1
  }

  /** The next reconcile asks for a Node only if none is attached and the other group is down. */
  predicate GrowOnlyWhenClear(w: World, threshold: Time) {
    forall slot :: Grows(PlanAt(w, true, threshold), slot) ==> w.Nodes() == 0 && GroupSize(w.pair.At(Other(slot))) <= 0
  }

  lemma StepKeepsNodes(w: World, s: Step, threshold: Time)
    requires NodeInvariant(w) && Allowed(w, s, threshold) && NodesBehave(w, s) && threshold > 0
    ensures NodeInvariant(Next(w, s, threshold))
  {
    StepKeepsSizes(w, s, threshold);
    if s.Reconcile? {
      ReconcileKeepsNodes(w, s.oc, s.saved, threshold);
    }
  }

  lemma ReconcileKeepsNodes(w: World, oc: Outcome, saved: bool, threshold: Time)
    requires NodeInvariant(w) && threshold > 0
    requires SizeInvariant(AfterReconcile(w, true, oc, saved, threshold))
    ensures NodeInvariant(AfterReconcile(w, true, oc, saved, threshold))
  {
    var plan := PlanAt(w, true, threshold);
    if Grows(plan, Spot) {
      GrowsAlone(w, Spot, threshold);
    } else if Grows(plan, OnDemand) {
      GrowsAlone(w, OnDemand, threshold);
    }
  }

  /** Capacity is requested only while nothing is attached and the other group is down. */
  lemma GrowsAlone(w: World, slot: Slot, threshold: Time)
    requires NodeInvariant(w) && threshold > 0
    requires Grows(PlanAt(w, true, threshold), slot)
    ensures w.Nodes() == 0
    ensures GroupSize(w.pair.At(Other(slot))) <= 0
    ensures w.intent == Online || w.pair.At(slot).Absent?
  {
  }

  lemma {:induction false} RunKeepsNodes(ws: seq<World>, steps: seq<Step>, threshold: Time, i: nat)
    requires IsNodeRun(ws, steps, threshold) && threshold > 0 && i < |ws|
    ensures NodeInvariant(ws[i])
  {
    if i > 0 {
      RunKeepsNodes(ws, steps, threshold, i - 1);
      StepKeepsNodes(ws[i - 1], steps[i - 1], threshold);
    }
  }

  /** In no run are Nodes of both groups attached together, and every grow step starts from zero Nodes. */
  lemma NodesNeverOverlap(ws: seq<World>, steps: seq<Step>, threshold: Time)
    requires IsNodeRun(ws, steps, threshold) && threshold > 0
    ensures forall i :: 0 <= i < |ws| ==> ws[i].spotNodes == 0 || ws[i].reliableNodes == 0
    ensures forall i :: 0 <= i < |ws| ==> GrowOnlyWhenClear(ws[i], threshold)
  {
    forall i | 0 <= i < |ws| ensures NodeInvariant(ws[i]) && GrowOnlyWhenClear(ws[i], threshold) {
      RunKeepsNodes(ws, steps, threshold, i);
      forall slot | Grows(PlanAt(ws[i], true, threshold), slot) {
        GrowsAlone(ws[i], slot, threshold);
      }
    }
  }

  // ---- Spot comes back only through a retry ----

  predicate NoNewToken(steps: seq<Step>) {
    forall i :: 0 <= i < |steps| ==> !steps[i].NewToken?
  }

  /**
   Once Spot is at zero with no retry pending, it stays there without a new
   token, also across Offline and Online again: no branch outside the retry
   raises an existing Spot group.
   */
  lemma {:induction false} SpotReturnsOnlyByRetry(ws: seq<World>, steps: seq<Step>, threshold: Time, i: nat)
    requires Linked(ws, steps, threshold) && NoNewToken(steps) && i < |ws|
    requires GroupSize(ws[0].pair.spot) == 0 && !ws[0].Pending() && ws[0].intent != Deleted
    requires forall j :: 0 <= j < |steps| ==> steps[j].SetIntent? ==> steps[j].intent != Deleted
    ensures GroupSize(ws[i].pair.spot) == 0 && !ws[i].Pending() && ws[i].intent != Deleted
  {
    if i > 0 {
      SpotReturnsOnlyByRetry(ws, steps, threshold, i - 1);
      var w, s := ws[i - 1], steps[i - 1];
      assert ws[i] == Next(w, s, threshold) && !s.NewToken?;
    }
  }
}
