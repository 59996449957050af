/**
 Deletion of the pair: a group is removed only when empty, the removal finishes
 exactly when no Node is held by a live reliable group behind a Spot group.
 */
module EksDelete {
  import opened Prelude
  import opened Cloud
  import opened EksPair
  import opened EksRun
  import opened EksAssumptions

  /** A group is deleted only at size zero, with zero Nodes observed on the Machine. */
  lemma DeletesOnlyEmptyGroups(w: World, observed: bool, threshold: Time)
    requires PlanAt(w, observed, threshold).Delete?
    ensures w.intent == Deleted && observed && w.Nodes() == 0
    ensures GroupSize(w.pair.At(PlanAt(w, observed, threshold).slot)) == 0
  {
  }

  // ---- the state deletion cannot leave ----

  /** The reliable group still holds a Node while the Spot group exists. */
  predicate Stuck(w: World) {
    w.pair.spot.Present? && w.pair.reliable.Present? && GroupSize(w.pair.reliable) != 0 && w.reliableNodes > 0
  }

  /** Steps of a Machine being deleted: a Node leaves only once its group is no longer at size one. */
  predicate Deleting(w: World, s: Step) {
    && w.intent == Deleted
    && (s.Detach? ==> GroupSize(w.pair.At(s.slot)) <= 0)
    && !s.LoseGroup? && !s.SetIntent?
  }

  /** Once stuck, always stuck, whatever the cloud answers; deletion never reports the Machine gone. */
  lemma StuckStays(w: World, s: Step, threshold: Time)
    requires Stuck(w) && SizeKnown(w.pair.spot) && SizeKnown(w.pair.reliable) && Deleting(w, s)
    ensures Stuck(Next(w, s, threshold)) && Next(w, s, threshold).intent == Deleted
    ensures SizeKnown(Next(w, s, threshold).pair.spot) && SizeKnown(Next(w, s, threshold).pair.reliable)
    ensures s.Reconcile? ==> PlanAt(w, s.observed, threshold).obs.state != Gone
    ensures s.Reconcile? && GroupSize(w.pair.spot) == 0 ==> Next(w, s, threshold).pair == w.pair
  {
  }

  lemma {:induction false} StuckForever(ws: seq<World>, steps: seq<Step>, threshold: Time, i: nat)
    requires Linked(ws, steps, threshold) && i < |ws|
    requires forall j :: 0 <= j < |steps| ==> Deleting(ws[j], steps[j])
    requires Stuck(ws[0]) && SizeKnown(ws[0].pair.spot) && SizeKnown(ws[0].pair.reliable)
    ensures Stuck(ws[i]) && SizeKnown(ws[i].pair.spot) && SizeKnown(ws[i].pair.reliable)
    ensures i < |steps| && steps[i].Reconcile? ==> PlanAt(ws[i], steps[i].observed, threshold).obs.state != Gone
  {
    if i > 0 {
      StuckForever(ws, steps, threshold, i - 1);
      StuckStays(ws[i - 1], steps[i - 1], threshold);
    }
    if i < |steps| {
      StuckStays(ws[i], steps[i], threshold);
    }
  }

  /** The ordinary fallback, with its Node attached and then deleted, is such a state. */
  lemma DeletedFallbackIsStuck(threshold: nat, t: Time, dropped: Assumption)
    requires threshold > 0
    ensures exists w :: Reaches(dropped, threshold, w) && w.intent == Deleted && Stuck(w)
  {
    ReachesFallback(dropped, threshold, t);
    var w := Machine(0, 1, t + threshold, FallenBack(t, threshold), None);
    ReachesNext(dropped, threshold, w, Attach(OnDemand));
    w := w.(reliableNodes := 1);
    ReachesNext(dropped, threshold, w, SetIntent(Deleted));
    assert Stuck(w.(intent := Deleted));
  }

  // ---- every other state finishes ----

  /** Remaining work on one group: shrink it, delete it. */
  function Work(g: Group): nat {
    if g.Absent? then 0 else if GroupSize(g) == 0 then 1 else 2
  }

  function Remaining(w: World): nat {
    Work(w.pair.spot) + Work(w.pair.reliable)
  }

  predicate Deletable(w: World) {
    && w.intent == Deleted
    && (w.pair.spot.Present? ==> w.pair.spot.owned) && (w.pair.reliable.Present? ==> w.pair.reliable.owned)
  }

  /** Nodes of groups that are not at size one have left. */
  function Drained(w: World): World {
    w.(spotNodes := if GroupSize(w.pair.spot) > 0 then w.spotNodes else 0,
    reliableNodes := if GroupSize(w.pair.reliable) > 0 then w.reliableNodes else 0)
  }

  /** Let drained Nodes leave, then reconcile once. */
  function Round(w: World, threshold: Time): World {
    AfterReconcile(Drained(w), true, Outcome(true, NoError), true, threshold)
  }

  function Rounds(w: World, n: nat, threshold: Time): World
    decreases n
  {
    if n == 0 then w else Rounds(Round(w, threshold), n - 1, threshold)
  }

  /** The next reconcile reports the capacity gone. */
  predicate ReportsGone(w: World, threshold: Time) {
    PlanAt(w, true, threshold).obs.state == Gone
  }

  lemma RoundWorks(w: World, threshold: Time)
    requires Deletable(w) && SizeKnown(w.pair.spot) && SizeKnown(w.pair.reliable) && !Stuck(w)
    ensures var after := Round(w, threshold);
            Deletable(after) && SizeKnown(after.pair.spot) && SizeKnown(after.pair.reliable) && !Stuck(after) &&
            Remaining(after) == if Remaining(w) == 0 then 0 else Remaining(w) - 1
    ensures ReportsGone(w, threshold) <==> Remaining(w) == 0
  {
  }

  lemma RoundKeepsStuck(w: World, threshold: Time)
    requires Deletable(w) && SizeKnown(w.pair.spot) && SizeKnown(w.pair.reliable) && Stuck(w)
    ensures var after := Round(w, threshold);
            Deletable(after) && SizeKnown(after.pair.spot) && SizeKnown(after.pair.reliable) && Stuck(after)
    ensures !ReportsGone(w, threshold)
  {
    StuckStays(Drained(w), Reconcile(true, Outcome(true, NoError), true), threshold);
  }

  lemma {:induction false} RoundsFinish(w: World, n: nat, threshold: Time)
    requires Deletable(w) && SizeKnown(w.pair.spot) && SizeKnown(w.pair.reliable) && !Stuck(w)
    ensures ReportsGone(Rounds(w, n, threshold), threshold) <==> n >= Remaining(w)
    decreases n
  {
    RoundWorks(w, threshold);
    if n > 0 {
      RoundsFinish(Round(w, threshold), n - 1, threshold);
    }
  }

  lemma {:induction false} RoundsStayStuck(w: World, n: nat, threshold: Time)
    requires Deletable(w) && SizeKnown(w.pair.spot) && SizeKnown(w.pair.reliable) && Stuck(w)
    ensures !ReportsGone(Rounds(w, n, threshold), threshold)
    decreases n
  {
    RoundKeepsStuck(w, threshold);
    if n > 0 {
      RoundsStayStuck(Round(w, threshold), n - 1, threshold);
    }
  }

  /** Deletion completes, within four rounds, exactly from the states that are not stuck. */
  lemma DeletionCompletesIffNotStuck(w: World, threshold: Time)
    requires Deletable(w) && SizeKnown(w.pair.spot) && SizeKnown(w.pair.reliable)
    ensures (exists n: nat :: ReportsGone(Rounds(w, n, threshold), threshold)) <==> !Stuck(w)
    ensures !Stuck(w) ==> ReportsGone(Rounds(w, 4, threshold), threshold)
  {
    if Stuck(w) {
      forall n: nat ensures !ReportsGone(Rounds(w, n, threshold), threshold) {
        RoundsStayStuck(w, n, threshold);
      }
    } else {
      RoundsFinish(w, 4, threshold);
    }
  }

  // ---- the same under any interleaving in which Nodes only leave ----

  /** A reconcile whose call takes effect and need not wait: no Node is left, or there is something to shrink. */
  predicate Unblocked(w: World, s: Step) {
    var shrinks := if w.pair.spot.Present? then GroupSize(w.pair.spot) != 0 else GroupSize(w.pair.reliable) != 0;
    s.Reconcile? && s.oc.applied && (shrinks || (s.observed && w.Nodes() == 0))
  }

  /** The Machine stays Deleted and its groups its own, and no Node joins; calls may fail, writes may be lost. */
  predicate DeletionProceeds(w: World, s: Step) {
    w.intent == Deleted && !s.SetIntent? && !s.LoseGroup? && !s.Attach? && (s.Relabel? ==> s.owned)
  }

  /**
   Unblocked reconciles use up the remaining work, nothing adds to it or creates
   the stuck state, and an observed reconcile is blocked only by Nodes of groups
   that no longer hold them.
   */
  lemma DeletionStep(w: World, s: Step, threshold: Time)
    requires Deletable(w) && SizeKnown(w.pair.spot) && SizeKnown(w.pair.reliable) && !Stuck(w) && DeletionProceeds(w, s)
    ensures var after := Next(w, s, threshold);
            && Deletable(after) && SizeKnown(after.pair.spot) && SizeKnown(after.pair.reliable) && !Stuck(after)
            && after.Nodes() <= w.Nodes()
            && (Remaining(w) > 0 ==> Remaining(after) + (if Unblocked(w, s) then 1 else 0) <= Remaining(w))
            && (Remaining(w) == 0 ==> Remaining(after) == 0 && (s.Reconcile? ==> ReportsGone(w, threshold)))
    ensures Remaining(w) > 0 && s.Reconcile? && s.observed && s.oc.applied && !Unblocked(w, s) ==>
              && w.Nodes() > 0
              && GroupSize(w.pair.spot) <= 0 && (w.reliableNodes > 0 ==> GroupSize(w.pair.reliable) <= 0)
  {
  }

  ghost function CountUnblocked(ws: seq<World>, steps: seq<Step>, i: nat): nat
    requires i <= |steps| < |ws|
  {
    if i == 0 then 0 else CountUnblocked(ws, steps, i - 1) + if Unblocked(ws[i - 1], steps[i - 1]) then 1 else 0
  }

  /**
   In any such run, failed calls and lost writes included, after four unblocked reconciles every
   later reconcile reports the capacity gone.
   */
  lemma {:induction false} DeletionCompletesInAnyOrder(ws: seq<World>, steps: seq<Step>, threshold: Time, i: nat)
    requires Linked(ws, steps, threshold) && i <= |steps|
    requires forall j :: 0 <= j < |steps| ==> DeletionProceeds(ws[j], steps[j])
    requires Deletable(ws[0]) && SizeKnown(ws[0].pair.spot) && SizeKnown(ws[0].pair.reliable) && !Stuck(ws[0])
    ensures Deletable(ws[i]) && SizeKnown(ws[i].pair.spot) && SizeKnown(ws[i].pair.reliable) && !Stuck(ws[i])
    ensures Remaining(ws[i]) > 0 ==> Remaining(ws[i]) + CountUnblocked(ws, steps, i) <= Remaining(ws[0]) <= 4
    ensures CountUnblocked(ws, steps, i) >= 4 ==> ReportsGone(ws[i], threshold)
  {
    if i > 0 {
      DeletionCompletesInAnyOrder(ws, steps, threshold, i - 1);
      DeletionStep(ws[i - 1], steps[i - 1], threshold);
    }
  }
}
