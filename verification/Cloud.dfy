/** What the managed cloud providers have in common: two kinds of capacity, and calls that may fail. */
module Cloud {
  datatype Class = CostOptimized | Reliable | Unnamed

  datatype Slot = Spot | OnDemand

  function Other(slot: Slot): Slot {
    if slot == Spot then OnDemand else Spot
  }

  datatype CallError = NoError | Conflict | NotFound | OtherError

  /** What the cloud did with one call: whether it took effect, and what it answered. */
  datatype Outcome = Outcome(applied: bool, error: CallError)
}
