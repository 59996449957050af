/**
 What goes wrong without each assumption made about the surroundings: for every
 positive threshold, a run from the initial state that keeps all the other
 assumptions and ends with both groups up, or with Nodes of both attached.
 */
module EksAssumptions {
  import opened Prelude
  import opened Cloud
  import opened EksPair
  import opened EksRun

  datatype Assumption = ConflictsTookEffect | TokensStay | GroupsStay | AttachmentObserved | AttachNeedsCapacity

  /** Keeps every assumption but the dropped one. */
  predicate Obeys(w: World, s: Step, threshold: Time, dropped: Assumption) {
    && (HonestResize(w, s, threshold) || (dropped == ConflictsTookEffect && s.oc.error == Conflict))
    && (FreshToken(w, s) || dropped == TokensStay)
    && DeletionFinal(w, s)
    && (NoOutsideDeletion(s) || dropped == GroupsStay)
    && (s.Reconcile? ==> s.observed || dropped == AttachmentObserved)
    && (s.Attach? ==> GroupSize(w.pair.At(s.slot)) == 1 || dropped == AttachNeedsCapacity)
  }

  /** The states after each of the steps. */
  function Play(w: World, steps: seq<Step>, threshold: Time): World
    decreases |steps|
  {
    if steps == [] then w else Play(Next(w, steps[0], threshold), steps[1..], threshold)
  }

  predicate Playable(w: World, steps: seq<Step>, threshold: Time, dropped: Assumption)
    decreases |steps|
  {
    steps == [] || (Obeys(w, steps[0], threshold, dropped) &&
                    Playable(Next(w, steps[0], threshold), steps[1..], threshold, dropped))
  }

  ghost predicate Reaches(dropped: Assumption, threshold: Time, w: World) {
    exists start, steps :: Initial(start) && Playable(start, steps, threshold, dropped) &&
                           Play(start, steps, threshold) == w
  }

  lemma {:induction false} PlayAppend(w: World, steps: seq<Step>, s: Step, threshold: Time, dropped: Assumption)
    requires Playable(w, steps, threshold, dropped)
    requires Obeys(Play(w, steps, threshold), s, threshold, dropped)
    ensures Playable(w, steps + [s], threshold, dropped)
    ensures Play(w, steps + [s], threshold) == Next(Play(w, steps, threshold), s, threshold)
    decreases |steps|
  {
    if steps == [] {
      assert [] + [s] == [s];
      assert [s][1..] == [];
    } else {
      PlayAppend(Next(w, steps[0], threshold), steps[1..], s, threshold, dropped);
      assert (steps + [s])[1..] == steps[1..] + [s];
    }
  }

  lemma ReachesNext(dropped: Assumption, threshold: Time, w: World, s: Step)
    requires Reaches(dropped, threshold, w) && Obeys(w, s, threshold, dropped)
    ensures Reaches(dropped, threshold, Next(w, s, threshold))
  {
    var start, steps :| Initial(start) && Playable(start, steps, threshold, dropped) &&
                        Play(start, steps, threshold) == w;
    PlayAppend(start, steps, s, threshold, dropped);
  }

  const GO := Reconcile(true, Outcome(true, NoError), true)

  function Machine(spot: int, reliable: int, now: Time, stored: Stored, request: Token): World {
    World(Pair(Created(spot), Created(reliable)), 0, 0, now, stored, Online, request)
  }

  const NOTHING := Stored(None, None, None, None)

  lemma ReachesStart(dropped: Assumption, threshold: Time, w: World)
    requires Initial(w)
    ensures Reaches(dropped, threshold, w)
  {
    assert Playable(w, [], threshold, dropped) && Play(w, [], threshold) == w;
  }

  /** Both groups created, Spot unavailable for a whole threshold. */
  lemma ReachesUnavailable(dropped: Assumption, threshold: nat, t: Time)
    requires threshold > 0
    ensures Reaches(dropped, threshold, Machine(1, 0, t + threshold, NOTHING.(unavailableSince := Some(t)), None))
  {
    var w := World(Pair(Absent, Absent), 0, 0, t, NOTHING, Online, None);
    ReachesStart(dropped, threshold, w);
    ReachesNext(dropped, threshold, w, GO);
    ReachesNext(dropped, threshold, w.(pair := Pair(Created(1), Absent)), GO);
    w := Machine(1, 0, t, NOTHING, None);
    ReachesNext(dropped, threshold, w, GO);
    ReachesNext(dropped, threshold, w.(stored := NOTHING.(unavailableSince := Some(t))), Tick(threshold));
  }

  /** The fallback completed: Spot at zero, reliable at one. */
  lemma ReachesFallback(dropped: Assumption, threshold: nat, t: Time)
    requires threshold > 0
    ensures Reaches(dropped, threshold, Machine(0, 1, t + threshold, FallenBack(t, threshold), None))
  {
    ReachesUnavailable(dropped, threshold, t);
    ReachesNext(dropped, threshold, Machine(1, 0, t + threshold, NOTHING.(unavailableSince := Some(t)), None), GO);
    ReachesNext(dropped, threshold, Machine(0, 0, t + threshold, FallenBack(t, threshold), None), GO);
  }

  function FallenBack(t: Time, threshold: Time): Stored {
    Stored(Some(t + threshold), Some(t), None, None)
  }

  /** A swallowed conflict without effect leaves Spot up under a recorded fallback. */
  lemma LostConflictBreaksSafety(threshold: nat, t: Time)
    requires threshold > 0
    ensures exists w :: Reaches(ConflictsTookEffect, threshold, w) && w.BothUp()
  {
    ReachesUnavailable(ConflictsTookEffect, threshold, t);
    var w := Machine(1, 0, t + threshold, NOTHING.(unavailableSince := Some(t)), None);
    ReachesNext(ConflictsTookEffect, threshold, w, Reconcile(true, Outcome(false, Conflict), true));
    w := w.(stored := FallenBack(t, threshold));
    ReachesNext(ConflictsTookEffect, threshold, w, GO);
    assert Machine(1, 1, t + threshold, w.stored, None).BothUp();
  }

  /** A token withdrawn in the middle of its retry leaves Spot up under a recorded fallback. */
  lemma WithdrawnTokenBreaksSafety(threshold: nat, t: Time)
    requires threshold > 0
    ensures exists w :: Reaches(TokensStay, threshold, w) && w.BothUp()
  {
    ReachesFallback(TokensStay, threshold, t);
    var stored := FallenBack(t, threshold);
    var retrying := stored.(retrySince := Some(t + threshold));
    ReachesNext(TokensStay, threshold, Machine(0, 1, t + threshold, stored, None), NewToken(Some(1)));
    ReachesNext(TokensStay, threshold, Machine(0, 1, t + threshold, stored, Some(1)), GO);
    ReachesNext(TokensStay, threshold, Machine(0, 1, t + threshold, retrying, Some(1)), GO);
    ReachesNext(TokensStay, threshold, Machine(0, 0, t + threshold, retrying, Some(1)), GO);
    ReachesNext(TokensStay, threshold, Machine(1, 0, t + threshold, retrying, Some(1)), NewToken(None));
    ReachesNext(TokensStay, threshold, Machine(1, 0, t + threshold, retrying, None), GO);
    assert Machine(1, 1, t + threshold, retrying, None).BothUp();
  }

  /** A Spot group deleted by somebody else is created again at size one beside a live reliable group. */
  lemma OutsideDeletionBreaksSafety(threshold: nat, t: Time)
    requires threshold > 0
    ensures exists w :: Reaches(GroupsStay, threshold, w) && w.BothUp()
  {
    ReachesFallback(GroupsStay, threshold, t);
    var w := Machine(0, 1, t + threshold, FallenBack(t, threshold), None);
    ReachesNext(GroupsStay, threshold, w, LoseGroup(Spot));
    ReachesNext(GroupsStay, threshold, w.(pair := Pair(Absent, Created(1))), GO);
    assert w.(pair := Pair(Created(1), Created(1))).BothUp();
  }

  predicate Overlap(w: World) {
    w.spotNodes > 0 && w.reliableNodes > 0
  }

  /** With attachment unobserved, reliable capacity is requested while a Spot Node still serves. */
  lemma UnobservedAttachmentOverlaps(threshold: nat, t: Time)
    requires threshold > 0
    ensures exists w :: Reaches(AttachmentObserved, threshold, w) && Overlap(w)
  {
    var blind := Reconcile(false, Outcome(true, NoError), true);
    ReachesUnavailable(AttachmentObserved, threshold, t);
    var w := Machine(1, 0, t + threshold, NOTHING.(unavailableSince := Some(t)), None).(spotNodes := 1);
    ReachesNext(AttachmentObserved, threshold, w.(spotNodes := 0), Attach(Spot));
    ReachesNext(AttachmentObserved, threshold, w, blind);
    w := Machine(0, 0, t + threshold, FallenBack(t, threshold), None).(spotNodes := 1);
    ReachesNext(AttachmentObserved, threshold, w, blind);
    w := w.(pair := Pair(Created(0), Created(1)));
    ReachesNext(AttachmentObserved, threshold, w, Attach(OnDemand));
    assert Overlap(w.(reliableNodes := 1));
  }

  /** A Spot Node that joins after its group went to zero can meet a reliable Node. */
  lemma LateNodeOverlaps(threshold: nat, t: Time)
    requires threshold > 0
    ensures exists w :: Reaches(AttachNeedsCapacity, threshold, w) && Overlap(w)
  {
    ReachesFallback(AttachNeedsCapacity, threshold, t);
    var w := Machine(0, 1, t + threshold, FallenBack(t, threshold), None);
    ReachesNext(AttachNeedsCapacity, threshold, w, Attach(Spot));
    ReachesNext(AttachNeedsCapacity, threshold, w.(spotNodes := 1), Attach(OnDemand));
    assert Overlap(w.(spotNodes := 1, reliableNodes := 1));
  }
}
