/**
 When the automatic fallback gives up on Spot: only after Spot has been
 unavailable for the whole threshold, counted over the run.
 */
module EksFallback {
  import opened Prelude
  import opened Cloud
  import opened EksPair
  import opened EksRun
  import opened EksAssumptions

  /** A reconcile whose observation reached the stored status. */
  predicate Saved(w: World, s: Step, threshold: Time) {
    s.Reconcile? && s.saved && Answer(PlanAt(w, s.observed, threshold), s.oc.error).Ok?
  }

  /** Spot was reported as the Available capacity, and the report was saved. */
  predicate SpotReported(w: World, s: Step, threshold: Time) {
    Saved(w, s, threshold) && var o := PlanAt(w, s.observed, threshold).obs; o.state == Available &&
                                                                             o.effective == CostOptimized
  }

  /** The reconcile that started the unavailability clock. */
  predicate Noticed(w: World, s: Step, threshold: Time) {
    && Saved(w, s, threshold) && w.stored.unavailableSince == None
    && PlanAt(w, s.observed, threshold).obs.stored.unavailableSince == Some(w.now)
  }

  /** Spot is shrunk to fall back, not for a retry and not for an intent. */
  predicate GivesUpSpot(w: World, s: Step, threshold: Time) {
    && s.Reconcile? && w.intent == Online && !w.Pending()
    && var plan := PlanAt(w, s.observed, threshold); plan.Resize? && plan.slot == Spot && plan.size == 0
  }

  ghost predicate UnavailableThroughout(ws: seq<World>, steps: seq<Step>, threshold: Time, k: int, i: int)
    requires |ws| == |steps| + 1
  {
    0 <= k < i <= |steps| && Noticed(ws[k], steps[k], threshold) &&
    forall j :: k <= j < i ==> !SpotReported(ws[j], steps[j], threshold)
  }

  lemma {:induction false} ClockWasStarted(ws: seq<World>, steps: seq<Step>, threshold: Time, i: nat) returns (k: nat)
    requires IsRun(ws, steps, threshold) && i < |ws| && ws[i].stored.unavailableSince != None
    ensures UnavailableThroughout(ws, steps, threshold, k, i)
    ensures ws[i].stored.unavailableSince == Some(ws[k].now)
  {
    var w, s := ws[i - 1], steps[i - 1];
    ClockChanges(w, s, threshold);
    if w.stored.unavailableSince == None {
      k := i - 1;
    } else {
      k := ClockWasStarted(ws, steps, threshold, i - 1);
    }
  }

  /** A stored clock is kept, cleared, or started; a Spot report always clears it. */
  lemma ClockChanges(w: World, s: Step, threshold: Time)
    ensures var before, after := w.stored.unavailableSince, Next(w, s, threshold).stored.unavailableSince;
            && (after != None && before != None ==> after == before)
            && (after != None && before == None ==> Noticed(w, s, threshold) && after == Some(w.now))
            && (SpotReported(w, s, threshold) ==> after == None)
  {
    if Saved(w, s, threshold) {
      PlanClock(w, s.observed, threshold);
    }
  }

  /** What any plan makes of the clock. */
  lemma PlanClock(w: World, observed: bool, threshold: Time)
    ensures var before, o := w.stored.unavailableSince, PlanAt(w, observed, threshold).obs;
            && (o.stored.unavailableSince == None || o.stored.unavailableSince == before
                || (before == None && o.stored.unavailableSince == Some(w.now)))
            && (o.state == Available && o.effective == CostOptimized ==> o.stored.unavailableSince == None)
  {
  }

  /**
   Whenever Spot is given up, some earlier reconcile had noticed it unavailable
   at least one threshold before, and no report of Spot as Available had been
   saved from then on.
   */
  lemma SpotGivenUpOnlyAfterThreshold(ws: seq<World>, steps: seq<Step>, threshold: Time, i: nat)
    requires IsRun(ws, steps, threshold) && threshold > 0 && i < |steps|
    requires GivesUpSpot(ws[i], steps[i], threshold)
    ensures exists k :: UnavailableThroughout(ws, steps, threshold, k, i) && ws[i].now - ws[k].now >= threshold
  {
    var w, s := ws[i], steps[i];
    assert w.stored.unavailableSince != None && w.now - w.stored.unavailableSince.value >= threshold;
    var k := ClockWasStarted(ws, steps, threshold, i);
  }

  /**
   A report that was not saved does not count: with no assumption dropped, Spot
   can be reported Available and be given up right after its Node leaves.
   */
  lemma UnsavedReportIsForgotten(threshold: nat, t: Time, dropped: Assumption)
    requires threshold > 0
    ensures exists w :: Reaches(dropped, threshold, w) && ReportedThenGivenUp(w, threshold)
  {
    ReachesUnavailable(dropped, threshold, t);
    var w := Machine(1, 0, t + threshold, NOTHING.(unavailableSince := Some(t)), None);
    ReachesNext(dropped, threshold, w, GroupStatusChange(Spot, Active));
    w := w.(pair := w.pair.With(Spot, WithStatus(w.pair.spot, Active)));
    ReachesNext(dropped, threshold, w, Attach(Spot));
    w := w.(spotNodes := 1);
    assert ReportedThenGivenUp(w, threshold);
  }

  predicate ReportedThenGivenUp(w: World, threshold: Time) {
    var unsaved := Reconcile(true, Outcome(true, NoError), false);
    var o := PlanAt(w, true, threshold).obs;
    && o.state == Available && o.effective == CostOptimized
    && GivesUpSpot(Next(Next(w, unsaved, threshold), Detach(Spot), threshold), unsaved, threshold)
  }
}
