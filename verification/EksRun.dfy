/**
 Whole runs of one cost-optimized Machine: reconciles whose cloud call may fail
 and whose status write may be lost, Nodes coming and going, time passing, new
 retry tokens and changes of intent, in any order.
 */
module EksRun {
  import opened Prelude
  import opened Cloud
  import opened EksPair

  datatype World = World(
    pair: Pair,
    spotNodes: nat,
    reliableNodes: nat,
    now: Time,
    stored: Stored,
    intent: Intent,
    request: Token)
  {
    function Nodes(): nat {
      spotNodes + reliableNodes
    }

    function Asked(observed: bool): Desired {
      Desired(intent, request, stored, observed, if observed then Nodes() else 0)
    }

    predicate Pending() {
      request != None && request != stored.retryObserved
    }

    predicate BothUp() {
      GroupSize(pair.spot) == 1 && GroupSize(pair.reliable) == 1
    }
  }

  /** One step. A reconcile carries what the cloud does, and whether the controller's status write lands. */
  datatype Step =
    | Reconcile(observed: bool, oc: Outcome, saved: bool)
    | Attach(slot: Slot)
    | Detach(slot: Slot)
    | GroupStatusChange(slot: Slot, status: GroupStatus)
    | Relabel(slot: Slot, owned: bool, rightClass: bool)
    | Tick(elapsed: nat)
    | NewToken(token: Token)
    | SetIntent(intent: Intent)
    | LoseGroup(slot: Slot)

  ghost predicate Initial(w: World) {
    && w.pair == Pair(Absent, Absent)
    && w.spotNodes == 0 && w.reliableNodes == 0
    && w.stored == Stored(None, None, None, None)
    && w.intent != Deleted
  }

  function PlanAt(w: World, observed: bool, threshold: Time): Plan {
    Decide(w.Asked(observed), w.pair, w.now, threshold)
  }

  function AfterReconcile(w: World, observed: bool, oc: Outcome, saved: bool, threshold: Time): World {
    var plan := PlanAt(w, observed, threshold);
    var answer := Answer(plan, oc.error);
    w.(pair := Effect(plan, w.pair, oc),
    stored := if answer.Ok? && saved then answer.value.stored else w.stored)
  }

  function Labelled(g: Group, owned: bool, rightClass: bool): Group {
    if g.Present? then g.(owned := owned, rightClass := rightClass) else g
  }

  function WithStatus(g: Group, status: GroupStatus): Group {
    if g.Present? then g.(status := status) else g
  }

  function Next(w: World, s: Step, threshold: Time): World {
    match s
    case Reconcile(observed, oc, saved) => AfterReconcile(w, observed, oc, saved, threshold)
    case Attach(slot) => if slot == Spot then w.(spotNodes := w.spotNodes + 1)
    else w.(reliableNodes := w.reliableNodes + 1)
    case Detach(slot) =>
      if slot == Spot then w.(spotNodes := if w.spotNodes > 0 then w.spotNodes - 1 else 0)
      else w.(reliableNodes := if w.reliableNodes > 0 then w.reliableNodes - 1 else 0)
    case GroupStatusChange(slot, status) => w.(pair := w.pair.With(slot, WithStatus(w.pair.At(slot), status)))
    case Relabel(slot, owned, rightClass) => w.(pair := w.pair.With(slot, Labelled(w.pair.At(slot), owned, rightClass)))
    case Tick(elapsed) => w.(now := w.now + elapsed)
    case NewToken(token) => w.(request := token)
    case SetIntent(intent) => w.(intent := intent)
    case LoseGroup(slot) => w.(pair := w.pair.With(slot, Absent))
  }

  // ---- what is assumed of the surroundings ----

  /** A resize that was accepted, or swallowed as a conflict, did take effect. */
  predicate HonestResize(w: World, s: Step, threshold: Time) {
    s.Reconcile? && PlanAt(w, s.observed, threshold).Resize? &&
    Swallowed(PlanAt(w, s.observed, threshold), s.oc.error) ==>
      s.oc.applied
  }

  /** A token is replaced only by a non-empty one that is not the acknowledged one. */
  predicate FreshToken(w: World, s: Step) {
    s.NewToken? ==> s.token != None && s.token != w.stored.retryObserved
  }

  predicate DeletionFinal(w: World, s: Step) {
    s.SetIntent? ==> w.intent != Deleted
  }

  /** Groups are not deleted by anyone else. */
  predicate NoOutsideDeletion(s: Step) {
    !s.LoseGroup?
  }

  predicate Allowed(w: World, s: Step, threshold: Time) {
    HonestResize(w, s, threshold) && FreshToken(w, s) && DeletionFinal(w, s) && NoOutsideDeletion(s)
  }

  /** Attachment is always observed, and only a group of size one gains Nodes. */
  predicate NodesBehave(w: World, s: Step) {
    (s.Reconcile? ==> s.observed) && (s.Attach? ==> GroupSize(w.pair.At(s.slot)) == 1)
  }

  ghost predicate Linked(ws: seq<World>, steps: seq<Step>, threshold: Time) {
    && |ws| == |steps| + 1
    && (forall i :: 0 <= i < |steps| ==>
                      Allowed(ws[i], steps[i], threshold) && ws[i + 1] == Next(ws[i], steps[i], threshold))
  }

  ghost predicate IsRun(ws: seq<World>, steps: seq<Step>, threshold: Time) {
    Linked(ws, steps, threshold) && Initial(ws[0])
  }

  // ---- size safety ----

  predicate SizeKnown(g: Group) {
    g.Present? ==> g.desiredSize == Some(0) || g.desiredSize == Some(1)
  }

  /**
   The inductive invariant. Its last line is the link between stored time and
   cloud size that no single branch shows: a fallback under way with no retry
   pending means that Spot is already at zero.
   */
  predicate SizeInvariant(w: World) {
    && SizeKnown(w.pair.spot) && SizeKnown(w.pair.reliable)
    && !w.BothUp()
    && (w.intent != Deleted && w.pair.spot.Absent? ==> w.pair.reliable.Absent? && w.stored.fallbackSince == None)
    && (w.intent != Deleted && w.stored.fallbackSince != None && !w.Pending() ==> GroupSize(w.pair.spot) == 0)
  }

  lemma StepKeepsSizes(w: World, s: Step, threshold: Time)
    requires SizeInvariant(w) && Allowed(w, s, threshold) && threshold > 0
    ensures SizeInvariant(Next(w, s, threshold))
  {
    if s.Reconcile? {
      ReconcileKeepsSizes(w, s.observed, s.oc, s.saved, threshold);
    }
  }

  lemma ReconcileKeepsSizes(w: World, observed: bool, oc: Outcome, saved: bool, threshold: Time)
    requires SizeInvariant(w) && threshold > 0
    requires PlanAt(w, observed, threshold).Resize? && Swallowed(PlanAt(w, observed, threshold), oc.error) ==>
               oc.applied
    ensures SizeInvariant(AfterReconcile(w, observed, oc, saved, threshold))
  {
  }

  lemma {:induction false} RunKeepsSizes(ws: seq<World>, steps: seq<Step>, threshold: Time, i: nat)
    requires IsRun(ws, steps, threshold) && threshold > 0 && i < |ws|
    ensures SizeInvariant(ws[i])
  {
    if i > 0 {
      RunKeepsSizes(ws, steps, threshold, i - 1);
      StepKeepsSizes(ws[i - 1], steps[i - 1], threshold);
    }
  }

  /** The Spot and the reliable group never both have size one, in any run. */
  lemma NeverBothUp(ws: seq<World>, steps: seq<Step>, threshold: Time)
    requires IsRun(ws, steps, threshold) && threshold > 0
    ensures forall i :: 0 <= i < |ws| ==> !ws[i].BothUp()
  {
    forall i | 0 <= i < |ws| ensures !ws[i].BothUp() {
      RunKeepsSizes(ws, steps, threshold, i);
    }
  }
}
