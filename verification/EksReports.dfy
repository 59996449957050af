/**
 What a reconcile of the pair reports, and when: each answer the controller can
 get, told from the state of the groups, the Nodes and the stored fields.
 */
module EksReports {
  import opened Prelude
  import opened Cloud
  import opened EksPair
  import opened EksRun
  import opened EksRetry

  function StateAt(w: World, observed: bool, threshold: Time): Availability {
    PlanAt(w, observed, threshold).obs.state
  }

  predicate Seen(w: World, observed: bool) {
    observed && w.Nodes() > 0
  }

  predicate IsActive(g: Group) {
    g.Present? && g.status == Active
  }

  // ---- reports ----

  /**
   A pair is reported Stopped exactly when it is wanted Offline, both groups are at zero and zero
   Nodes are observed.
   */
  lemma StoppedExactly(w: World, observed: bool, threshold: Time)
    requires Serviceable(w.pair)
    ensures StateAt(w, observed, threshold) == Stopped
       <==> && w.intent == Offline && GroupSize(w.pair.spot) == 0 && GroupSize(w.pair.reliable) == 0
            && observed && w.Nodes() == 0
  {
  }

  /**
   Nothing is pending and a Node serves, on reliable capacity if that is up, else on Spot unless a
   fallback has begun.
   */
  predicate Serves(w: World, observed: bool) {
    && Seen(w, observed)
    && if GroupSize(w.pair.reliable) == 1 then IsActive(w.pair.reliable)
       else w.stored.fallbackSince == None && IsActive(w.pair.spot)
  }

  /** A retry just noticed, brought to its end on Spot, or rolled back to a reliable Node. */
  predicate ServesRetry(w: World, observed: bool, threshold: Time) {
    if w.stored.retrySince == None then true
    else if w.now - w.stored.retrySince.value < threshold then
      GroupSize(w.pair.reliable) == 0 && GroupSize(w.pair.spot) == 1 && Seen(w, observed) && IsActive(w.pair.spot)
    else GroupSize(w.pair.spot) == 0 && GroupSize(w.pair.reliable) == 1 && Seen(w, observed) &&
         IsActive(w.pair.reliable)
  }

  /** Which capacity an Available report names. */
  function Serving(w: World, threshold: Time): Class {
    if w.Pending() then
      if w.stored.retrySince != None && w.now - w.stored.retrySince.value < threshold then CostOptimized else Reliable
    else if GroupSize(w.pair.reliable) == 1 then Reliable else CostOptimized
  }

  lemma AvailableExactly(w: World, observed: bool, threshold: Time)
    requires Serviceable(w.pair)
    ensures StateAt(w, observed, threshold) == Available
       <==> w.intent == Online && if w.Pending() then ServesRetry(w, observed, threshold) else Serves(w, observed)
    ensures StateAt(w, observed, threshold) == Available ==>
              PlanAt(w, observed, threshold).Report? &&
              PlanAt(w, observed, threshold).obs.effective == Serving(w, threshold)
  {
  }

  /** Deletion reports the capacity gone exactly when neither group is there any more. */
  lemma GoneExactly(w: World, observed: bool, threshold: Time)
    ensures StateAt(w, observed, threshold) == Gone <==>
            w.intent == Deleted && w.pair.spot.Absent? && w.pair.reliable.Absent?
  {
  }

  /** Each state is reported with its own reason. */
  lemma ReasonsMatch(w: World, observed: bool, threshold: Time)
    ensures var o := PlanAt(w, observed, threshold).obs;
            match o.state
            case Available => o.reason == Ready
            case Pending => o.reason == Provisioning
            case Stopped => o.reason == StoppedReason
            case Gone => o.reason == DeletedReason
            case Failed => o.reason == ProviderError
            case Recovering => o.reason == Repairing || o.reason == Stopping || o.reason == Interrupted
    ensures var o := PlanAt(w, observed, threshold).obs;
            && (o.note == RetryUnavailable ==> o.stored.retryObserved == w.request && w.Pending())
            && (o.reason == Interrupted ==>
                  o.note == NoNote && o.stored.unavailableSince != None && o.stored.fallbackSince == None)
            && (o.note == NoNote && o.state == Available ==>
                  w.stored.fallbackSince == None || o.stored.fallbackSince == None)
  {
  }

  // ---- creation, foreign groups, errors ----

  /** Groups are created one at a time, Spot with its Node and reliable empty, exactly while one is missing. */
  lemma CreatesExactly(w: World, observed: bool, threshold: Time)
    ensures var plan := PlanAt(w, observed, threshold);
            && (plan.Create? <==> w.intent != Deleted && (w.pair.spot.Absent? || w.pair.reliable.Absent?))
            && (plan.Create? ==> if w.pair.spot.Absent? then plan.slot == Spot && plan.size == 1
                  else plan.slot == OnDemand && plan.size == 0)
            && (plan.Create? ==> StateAt(w, observed, threshold) == Pending)
  {
  }

  /** A group that is not owned is never changed; one of the wrong class only by a deletion. */
  lemma ForeignUntouched(w: World, observed: bool, oc: Outcome, saved: bool, threshold: Time, slot: Slot)
    requires w.pair.At(slot).Present?
    requires !w.pair.At(slot).owned || (!w.pair.At(slot).rightClass && w.intent != Deleted)
    ensures AfterReconcile(w, observed, oc, saved, threshold).pair.At(slot) == w.pair.At(slot)
    ensures w.pair.spot.Present? && w.pair.reliable.Present? && w.intent != Deleted ==>
              StateAt(w, observed, threshold) == Failed &&
              AfterReconcile(w, observed, oc, saved, threshold).pair == w.pair
  {
  }

  /** A reconcile fails exactly on an error of its call that is no conflict, and not the absence of what it deletes. */
  lemma FailsExactly(w: World, observed: bool, error: CallError, threshold: Time)
    ensures var plan := PlanAt(w, observed, threshold);
            Answer(plan, error) == if !plan.Report? &&
                                      (error == OtherError || (error == NotFound && !plan.Delete?)) then Err(error)
            else Ok(plan.obs)
  {
  }

  // ---- Offline ----

  /** The Machine stays wanted Offline and its groups stay its own; calls may fail, Nodes come and go. */
  predicate StaysOffline(w: World, s: Step) {
    && w.intent == Offline && Serviceable(w.pair) && !s.LoseGroup?
    && (s.Relabel? ==> s.owned && s.rightClass) && (s.SetIntent? ==> s.intent == Offline)
  }

  function GroupsUp(w: World): nat {
    (if GroupSize(w.pair.spot) != 0 then 1 else 0) + (if GroupSize(w.pair.reliable) != 0 then 1 else 0)
  }

  predicate Effective(s: Step) {
    s.Reconcile? && s.oc.applied
  }

  lemma OfflineStep(w: World, s: Step, threshold: Time)
    requires StaysOffline(w, s)
    ensures var after := Next(w, s, threshold);
            && after.intent == Offline && Serviceable(after.pair)
            && GroupsUp(after) == if Effective(s) && GroupsUp(w) > 0 then GroupsUp(w) - 1 else GroupsUp(w)
  {
  }

  ghost function CountEffective(steps: seq<Step>, i: nat): nat
    requires i <= |steps|
  {
    if i == 0 then 0 else CountEffective(steps, i - 1) + if Effective(steps[i - 1]) then 1 else 0
  }

  ghost predicate OfflineRun(ws: seq<World>, steps: seq<Step>, threshold: Time) {
    && |ws| == |steps| + 1 && ws[0].intent == Offline && Serviceable(ws[0].pair)
    && (forall i :: 0 <= i < |steps| ==> StaysOffline(ws[i], steps[i]) && ws[i + 1] == Next(ws[i], steps[i], threshold))
  }

  /**
   Two reconciles whose calls take effect bring both groups to zero for as long
   as the Machine stays wanted Offline, and once no Node is left an observed
   reconcile reports it Stopped.
   */
  lemma {:induction false} OfflineStops(ws: seq<World>, steps: seq<Step>, threshold: Time, i: nat)
    requires OfflineRun(ws, steps, threshold) && i <= |steps|
    ensures ws[i].intent == Offline && Serviceable(ws[i].pair)
    ensures GroupsUp(ws[i]) == 0 || GroupsUp(ws[i]) + CountEffective(steps, i) == GroupsUp(ws[0])
    ensures CountEffective(steps, i) >= 2 ==> GroupSize(ws[i].pair.spot) == 0 && GroupSize(ws[i].pair.reliable) == 0
    ensures CountEffective(steps, i) >= 2 && ws[i].Nodes() == 0 ==> StateAt(ws[i], true, threshold) == Stopped
  {
    if i > 0 {
      OfflineStops(ws, steps, threshold, i - 1);
      OfflineStep(ws[i - 1], steps[i - 1], threshold);
    }
    StoppedExactly(ws[i], true, threshold);
  }
}
