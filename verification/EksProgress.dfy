/**
 What the pair gets done: a retry really tries Spot before its deadline, Spot is
 given up when it should be, and a fallback once begun ends on reliable capacity.
 */
module EksProgress {
  import opened Prelude
  import opened Cloud
  import opened EksPair
  import opened EksRun
  import opened EksRetry
  import opened EksFallback
  import opened EksReports

  // ---- a retry before its deadline ----

  /** The retry's clock runs and has not run out. */
  predicate Trying(w: World, threshold: Time) {
    w.Pending() && w.stored.retrySince != None && w.now - w.stored.retrySince.value < threshold
  }

  /** Reliable capacity still to remove, then Spot still to ask for. */
  function AttemptRank(w: World): nat {
    if GroupSize(w.pair.reliable) != 0 then 2 else if GroupSize(w.pair.spot) != 1 then 1 else 0
  }

  /** A reconcile whose resize takes effect and which does not wait for the Nodes of the group that goes. */
  predicate Advances(w: World, s: Step) {
    s.Reconcile? && s.oc.applied && AttemptRank(w) > 0 && (AttemptRank(w) == 1 ==> !Seen(w, s.observed))
  }

  /** A reconcile that sees the Spot Node, and whose status is saved. */
  predicate Concludes(w: World, s: Step) {
    s.Reconcile? && s.saved && AttemptRank(w) == 0 && Seen(w, s.observed) && IsActive(w.pair.spot)
  }

  lemma AttemptStep(w: World, s: Step, threshold: Time)
    requires Trying(w, threshold) && Works(w, s) && Allowed(w, s, threshold)
    ensures var after := Next(w, s, threshold);
            if Concludes(w, s) then Acknowledges(w, s, threshold) && SpotRestored(w, after)
            else
              && !Acknowledges(w, s, threshold) && after.Pending() && after.stored.retrySince == w.stored.retrySince
              && AttemptRank(after) + (if Advances(w, s) then 1 else 0) <= AttemptRank(w)
  {
  }

  ghost function CountAdvances(ws: seq<World>, steps: seq<Step>, i: nat): nat
    requires i <= |steps| < |ws|
  {
    if i == 0 then 0 else CountAdvances(ws, steps, i - 1) + if Advances(ws[i - 1], steps[i - 1]) then 1 else 0
  }

  /** Steps before the deadline of one retry. */
  ghost predicate AttemptSegment(ws: seq<World>, steps: seq<Step>, threshold: Time) {
    && Linked(ws, steps, threshold) && ws[0].Pending() && ws[0].stored.retrySince != None
    && (forall i :: 0 <= i < |steps| ==> Works(ws[i], steps[i]))
    && (forall i :: 0 <= i < |ws| ==> ws[i].now - ws[0].stored.retrySince.value < threshold)
  }

  /**
   Before the deadline two advancing reconciles have Spot at one and reliable at
   zero, and the first saved reconcile that then sees the Spot Node acknowledges.
   */
  lemma {:induction false} RetryTriesSpot(ws: seq<World>, steps: seq<Step>, threshold: Time, i: nat)
    requires AttemptSegment(ws, steps, threshold) && i <= |steps|
    ensures SomeAcknowledgement(ws, steps, threshold, i) ||
            (&& Trying(ws[i], threshold) && ws[i].stored.retrySince == ws[0].stored.retrySince
             && AttemptRank(ws[i]) + CountAdvances(ws, steps, i) <= AttemptRank(ws[0]))
    ensures !SomeAcknowledgement(ws, steps, threshold, i) && CountAdvances(ws, steps, i) >= 2 ==>
              GroupSize(ws[i].pair.spot) == 1 && GroupSize(ws[i].pair.reliable) == 0
  {
    if i > 0 {
      RetryTriesSpot(ws, steps, threshold, i - 1);
      if !SomeAcknowledgement(ws, steps, threshold, i - 1) {
        AttemptStep(ws[i - 1], steps[i - 1], threshold);
      }
    }
  }

  // ---- giving Spot up ----

  /** Spot is given up exactly when it has been unavailable for the threshold and nothing else is under way. */
  lemma GivesUpExactly(w: World, observed: bool, oc: Outcome, saved: bool, threshold: Time)
    requires Serviceable(w.pair) && threshold > 0
    ensures GivesUpSpot(w, Reconcile(observed, oc, saved), threshold)
       <==> && w.intent == Online && !w.Pending()
            && GroupSize(w.pair.spot) != 0 && GroupSize(w.pair.reliable) != 1 && w.stored.fallbackSince == None
            && !(Seen(w, observed) && IsActive(w.pair.spot))
            && w.stored.unavailableSince != None && w.now - w.stored.unavailableSince.value >= threshold
    ensures GivesUpSpot(w, Reconcile(observed, oc, saved), threshold) ==>
              PlanAt(w, observed, threshold).obs.stored.fallbackSince == Some(w.now)
  {
  }

  /** While Spot is unavailable the first saved reconcile starts the clock. */
  lemma ClockStarts(w: World, observed: bool, oc: Outcome, threshold: Time)
    requires Serviceable(w.pair) && threshold > 0 && w.intent == Online && !w.Pending()
    requires GroupSize(w.pair.reliable) != 1 && w.stored.fallbackSince == None && w.stored.unavailableSince == None
    requires !(Seen(w, observed) && IsActive(w.pair.spot))
    ensures Next(w, Reconcile(observed, oc, true), threshold).stored.unavailableSince == Some(w.now)
  {
  }

  // ---- a fallback that has begun ----

  predicate FallingBack(w: World) {
    w.intent == Online && !w.Pending() && w.stored.fallbackSince != None && GroupSize(w.pair.spot) == 0
  }

  /** A reconcile whose resize takes effect and which does not wait for the last Spot Node. */
  predicate Restores(w: World, s: Step) {
    s.Reconcile? && s.oc.applied && !Seen(w, s.observed)
  }

  lemma FallbackStep(w: World, s: Step, threshold: Time)
    requires FallingBack(w) && Works(w, s) && Allowed(w, s, threshold) && !s.NewToken?
    ensures FallingBack(Next(w, s, threshold))
    ensures GroupSize(w.pair.reliable) == 1 || Restores(w, s) ==> GroupSize(Next(w, s, threshold).pair.reliable) == 1
    ensures s.Reconcile? && !Seen(w, s.observed) && GroupSize(w.pair.reliable) != 1 ==>
              PlanAt(w, s.observed, threshold).Resize? && PlanAt(w, s.observed, threshold).slot == OnDemand
  {
  }

  /** One such reconcile has reliable capacity at one, and it stays until a new retry or another intent. */
  lemma {:induction false} FallbackCompletes(ws: seq<World>, steps: seq<Step>, threshold: Time, k: nat, i: nat)
    requires Linked(ws, steps, threshold) && FallingBack(ws[0])
    requires forall j :: 0 <= j < |steps| ==> Works(ws[j], steps[j]) && !steps[j].NewToken?
    requires k < |steps| && Restores(ws[k], steps[k]) && i <= |steps|
    ensures FallingBack(ws[i])
    ensures i > k ==> GroupSize(ws[i].pair.reliable) == 1
    ensures i > k && ws[i].Nodes() > 0 && IsActive(ws[i].pair.reliable) && Serviceable(ws[i].pair) ==>
              StateAt(ws[i], true, threshold) == Available && PlanAt(ws[i], true, threshold).obs.effective == Reliable
  {
    if i > 0 {
      FallbackCompletes(ws, steps, threshold, k, i - 1);
      FallbackStep(ws[i - 1], steps[i - 1], threshold);
    }
    if Serviceable(ws[i].pair) {
      AvailableExactly(ws[i], true, threshold);
    }
  }
}
