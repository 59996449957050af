/**
 The manual retry is one-shot: a token past its deadline is rolled back and
 acknowledged, and no token is acknowledged twice.
 */
module EksRetry {
  import opened Prelude
  import opened Cloud
  import opened EksPair
  import opened EksRun

  // ---- acknowledgement after the deadline ----

  /** A retry whose time is over. */
  predicate RollbackDue(w: World, threshold: Time) {
    w.Pending() && Elapsed(w.stored.retrySince, w.now, threshold)
  }

  predicate Serviceable(p: Pair) {
    && p.spot.Present? && p.spot.owned && p.spot.rightClass
    && p.reliable.Present? && p.reliable.owned && p.reliable.rightClass
  }

  /** The Machine stays wanted Online and its groups stay its own; calls may fail and status writes may be lost. */
  predicate Works(w: World, s: Step) {
    && w.intent == Online && Serviceable(w.pair)
    && (s.Relabel? ==> s.owned && s.rightClass)
    && (s.SetIntent? ==> s.intent == Online)
  }

  /** Spot still to remove, then reliable still to restore. */
  function RollbackRank(w: World): nat {
    if GroupSize(w.pair.spot) != 0 then 2 else if GroupSize(w.pair.reliable) != 1 then 1 else 0
  }

  /** A reconcile that sees Nodes it has to wait for. */
  predicate Waits(w: World, observed: bool) {
    RollbackRank(w) == 1 && observed && w.Nodes() > 0
  }

  /** A reconcile that need not wait, and whose resize takes effect, or whose acknowledgement is saved. */
  predicate Productive(w: World, s: Step) {
    s.Reconcile? && !Waits(w, s.observed) && if RollbackRank(w) > 0 then s.oc.applied else s.saved
  }

  predicate Acknowledges(w: World, s: Step, threshold: Time) {
    var after := Next(w, s, threshold);
    s.Reconcile? && after.stored.retryObserved != None && after.stored.retryObserved != w.stored.retryObserved
  }

  /** What a rolled-back and acknowledged retry leaves behind. */
  predicate RolledBack(w: World, after: World) {
    && after.stored.retryObserved == w.request && after.stored.retrySince == None
    && GroupSize(after.pair.spot) == 0 && GroupSize(after.pair.reliable) == 1
  }

  lemma RollbackStep(w: World, s: Step, threshold: Time)
    requires RollbackDue(w, threshold) && SizeInvariant(w) && Works(w, s) && Allowed(w, s, threshold)
    ensures var after := Next(w, s, threshold);
            if s.Reconcile? && RollbackRank(w) == 0 && s.saved then Acknowledges(w, s, threshold) &&
                                                                    RolledBack(w, after)
            else
              && !Acknowledges(w, s, threshold) && RollbackDue(after, threshold)
              && RollbackRank(after) + (if Productive(w, s) then 1 else 0) <= RollbackRank(w)
  {
  }

  /** The Nodes to wait for come second to what is still to be done. */
  function NodesInTheWay(w: World): nat {
    if RollbackRank(w) == 1 then w.Nodes() else 0
  }

  predicate Drains(w: World, s: Step) {
    s.Detach? && RollbackRank(w) == 1 && (if s.slot == Spot then w.spotNodes else w.reliableNodes) > 0
  }

  /**
   When only groups of size one gain Nodes, a due retry is acknowledged, or the
   pair of rank and Nodes in the way never grows, and falls at every productive
   reconcile and every drain; and one of these can always be next.
   */
  lemma RollbackDescends(w: World, s: Step, threshold: Time)
    requires RollbackDue(w, threshold) && SizeInvariant(w) && Works(w, s) && Allowed(w, s, threshold)
    requires s.Attach? ==> GroupSize(w.pair.At(s.slot)) == 1
    ensures var after := Next(w, s, threshold);
            var less := RollbackRank(after) < RollbackRank(w)
                        || (RollbackRank(after) == RollbackRank(w) && NodesInTheWay(after) < NodesInTheWay(w));
            var same := RollbackRank(after) == RollbackRank(w) && NodesInTheWay(after) == NodesInTheWay(w);
            && (less || same)
            && (Drains(w, s) ==> less)
            && (Productive(w, s) ==> less || (Acknowledges(w, s, threshold) && RolledBack(w, after)))
    ensures (forall observed ::
               Productive(w, Reconcile(observed, Outcome(true, NoError), true)) || NodesInTheWay(w) > 0)
    ensures NodesInTheWay(w) > 0 ==> Drains(w, Detach(Spot)) || Drains(w, Detach(OnDemand))
  {
    RollbackStep(w, s, threshold);
  }

  ghost function CountProductive(ws: seq<World>, steps: seq<Step>, i: nat): nat
    requires i <= |steps| < |ws|
  {
    if i == 0 then 0 else CountProductive(ws, steps, i - 1) + if Productive(ws[i - 1], steps[i - 1]) then 1 else 0
  }

  ghost predicate AcknowledgedBy(ws: seq<World>, steps: seq<Step>, threshold: Time, i: nat)
    requires |ws| == |steps| + 1
  {
    exists j :: 0 <= j < i <= |steps| && Acknowledges(ws[j], steps[j], threshold) && RolledBack(ws[j], ws[j + 1])
  }

  ghost predicate DueSegment(ws: seq<World>, steps: seq<Step>, threshold: Time) {
    && Linked(ws, steps, threshold) && threshold > 0
    && SizeInvariant(ws[0]) && RollbackDue(ws[0], threshold)
    && forall i :: 0 <= i < |steps| ==> Works(ws[i], steps[i])
  }

  lemma {:induction false} SegmentKeepsSizes(ws: seq<World>, steps: seq<Step>, threshold: Time, i: nat)
    requires Linked(ws, steps, threshold) && threshold > 0 && SizeInvariant(ws[0]) && i < |ws|
    ensures SizeInvariant(ws[i])
  {
    if i > 0 {
      SegmentKeepsSizes(ws, steps, threshold, i - 1);
      StepKeepsSizes(ws[i - 1], steps[i - 1], threshold);
    }
  }

  lemma {:induction false} RollbackProgress(ws: seq<World>, steps: seq<Step>, threshold: Time, i: nat)
    requires DueSegment(ws, steps, threshold) && i <= |steps|
    ensures AcknowledgedBy(ws, steps, threshold, i) ||
            (RollbackDue(ws[i], threshold) &&
             RollbackRank(ws[i]) + CountProductive(ws, steps, i) <= RollbackRank(ws[0]))
  {
    if i > 0 {
      RollbackProgress(ws, steps, threshold, i - 1);
      if !AcknowledgedBy(ws, steps, threshold, i - 1) {
        SegmentKeepsSizes(ws, steps, threshold, i - 1);
        RollbackStep(ws[i - 1], steps[i - 1], threshold);
      }
    }
  }

  /**
   Past the deadline, whatever else happens in between (failed calls, lost
   writes, new tokens), three productive reconciles are enough: the token is
   acknowledged with Spot at zero and reliable at one.
   */
  lemma RetryIsAcknowledged(ws: seq<World>, steps: seq<Step>, threshold: Time)
    requires DueSegment(ws, steps, threshold)
    requires CountProductive(ws, steps, |steps|) >= 3
    ensures AcknowledgedBy(ws, steps, threshold, |steps|)
  {
    RollbackProgress(ws, steps, threshold, |steps|);
  }

  // ---- from the request to the acknowledgement ----

  /** What a retry that brought Spot back leaves behind. */
  predicate SpotRestored(w: World, after: World) {
    && after.stored == Stored(None, None, w.request, None)
    && GroupSize(after.pair.spot) == 1 && GroupSize(after.pair.reliable) == 0 && w.Nodes() > 0
  }

  /** An acknowledgement is either a success on Spot or a completed rollback, and acknowledges the current token. */
  lemma AcknowledgementMeaning(w: World, s: Step, threshold: Time)
    requires Acknowledges(w, s, threshold)
    ensures w.Pending() && w.intent == Online
    ensures SpotRestored(w, Next(w, s, threshold)) || RolledBack(w, Next(w, s, threshold))
  {
  }

  ghost predicate SomeAcknowledgement(ws: seq<World>, steps: seq<Step>, threshold: Time, i: nat)
    requires |ws| == |steps| + 1
  {
    exists j :: 0 <= j < i <= |steps| && Acknowledges(ws[j], steps[j], threshold) &&
                (SpotRestored(ws[j], ws[j + 1]) || RolledBack(ws[j], ws[j + 1]))
  }

  /** A Machine wanted Online, with a token to serve. */
  ghost predicate RetrySegment(ws: seq<World>, steps: seq<Step>, threshold: Time) {
    && Linked(ws, steps, threshold) && threshold > 0
    && SizeInvariant(ws[0]) && ws[0].Pending()
    && (ws[0].stored.retrySince == None || ws[0].stored.retrySince.value <= ws[0].now)
    && forall i :: 0 <= i < |steps| ==> Works(ws[i], steps[i])
  }

  /** Until acknowledged, the token stays pending and its clock runs from the first saved reconcile at the latest. */
  lemma {:induction false} PendingClock(ws: seq<World>, steps: seq<Step>, threshold: Time, k: nat, i: nat)
    requires RetrySegment(ws, steps, threshold) && i <= |steps|
    requires k < |steps| && steps[k].Reconcile? && steps[k].saved
    ensures SomeAcknowledgement(ws, steps, threshold, i) ||
            (&& ws[i].Pending()
             && (ws[i].stored.retrySince == None || ws[i].stored.retrySince.value <= ws[i].now)
             && (i > k ==> ws[i].stored.retrySince != None && ws[i].stored.retrySince.value <= ws[k].now))
  {
    if i > 0 {
      PendingClock(ws, steps, threshold, k, i - 1);
      if !SomeAcknowledgement(ws, steps, threshold, i - 1) {
        var w, s := ws[i - 1], steps[i - 1];
        SegmentKeepsSizes(ws, steps, threshold, i - 1);
        if Acknowledges(w, s, threshold) {
          AcknowledgementMeaning(w, s, threshold);
        } else {
          PendingStep(w, s, threshold);
        }
      }
    }
  }

  lemma PendingStep(w: World, s: Step, threshold: Time)
    requires SizeInvariant(w) && Works(w, s) && Allowed(w, s, threshold) && w.Pending()
    requires !Acknowledges(w, s, threshold)
    ensures var after := Next(w, s, threshold);
            && after.Pending() && w.now <= after.now
            && (w.stored.retrySince != None ==> after.stored.retrySince == w.stored.retrySince)
            && (w.stored.retrySince == None ==>
                  after.stored.retrySince == None || after.stored.retrySince == Some(w.now))
            && (s.Reconcile? && s.saved ==> after.stored.retrySince != None)
  {
  }

  /**
   A token is answered: if the status of some reconcile was saved, a threshold
   later three productive reconciles suffice, among any failed and lost ones, and
   the answer is Spot restored with its Node attached, or the rollback completed.
   */
  lemma EveryRetryIsAnswered(ws: seq<World>, steps: seq<Step>, threshold: Time, k: nat, i: nat)
    requires RetrySegment(ws, steps, threshold)
    requires k < i <= |steps| && steps[k].Reconcile? && steps[k].saved && ws[i].now - ws[k].now >= threshold
    requires CountProductive(ws[i..], steps[i..], |steps| - i) >= 3
    ensures SomeAcknowledgement(ws, steps, threshold, |steps|)
  {
    PendingClock(ws, steps, threshold, k, i);
    if !SomeAcknowledgement(ws, steps, threshold, i) {
      var us, rest := ws[i..], steps[i..];
      SegmentKeepsSizes(ws, steps, threshold, i);
      assert forall j :: 0 <= j < |us| ==> us[j] == ws[i + j];
      assert forall j :: 0 <= j < |rest| ==> rest[j] == steps[i + j];
      RetryIsAcknowledged(us, rest, threshold);
      var j :| 0 <= j < |rest| && Acknowledges(us[j], rest[j], threshold) && RolledBack(us[j], us[j + 1]);
      assert Acknowledges(ws[i + j], steps[i + j], threshold) && RolledBack(ws[i + j], ws[i + j + 1]);
    }
  }

  // ---- never twice ----

  /** Every token is used for the first time. */
  ghost predicate TokensNew(ws: seq<World>, steps: seq<Step>) {
    forall i, j :: 0 <= j <= i < |steps| < |ws| && steps[i].NewToken? ==> ws[j].request != steps[i].token
  }

  lemma {:induction false} AfterAcknowledgement(ws: seq<World>, steps: seq<Step>, threshold: Time, i: nat, k: nat)
    requires IsRun(ws, steps, threshold) && TokensNew(ws, steps) && i < k < |ws|
    requires Acknowledges(ws[i], steps[i], threshold)
    ensures ws[k].request == ws[i].request ==> ws[k].stored.retryObserved == ws[i].request || ws[k].intent == Deleted
  {
    if k > i + 1 {
      AfterAcknowledgement(ws, steps, threshold, i, k - 1);
      var w, s := ws[k - 1], steps[k - 1];
      assert ws[k] == Next(w, s, threshold);
      if s.NewToken? {
        assert ws[i].request != s.token;
      }
    }
  }

  /** No token is acknowledged twice in a run. */
  lemma AcknowledgedOnce(ws: seq<World>, steps: seq<Step>, threshold: Time, i: nat, j: nat)
    requires IsRun(ws, steps, threshold) && TokensNew(ws, steps) && i < j < |steps|
    requires Acknowledges(ws[i], steps[i], threshold) && Acknowledges(ws[j], steps[j], threshold)
    ensures ws[i + 1].stored.retryObserved == ws[i].request
    ensures ws[i + 1].stored.retryObserved != ws[j + 1].stored.retryObserved
  {
    AfterAcknowledgement(ws, steps, threshold, i, j);
    assert ws[j + 1] == Next(ws[j], steps[j], threshold);
  }
}
