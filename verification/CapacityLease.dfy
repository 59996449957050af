/**
 The lease object that serializes allocation writes for one Machine: an
 append-only history of versions behind compare-and-swap writes. Acquiring and
 releasing are written as the code writes them, between interferences of the
 other replicas.
 */
module CapacityLease {
  import opened Prelude

  /** One acquire call; every call draws its own identity. */
  type Holder = nat

  /** None stands for a missing field, and for an empty holder. */
  datatype Lease = Lease(holder: Option<Holder>, renewTime: Option<Time>, seconds: Option<nat>)

  const LEASE_SECONDS: nat := 60

  function Taken(h: Holder, now: Time): Lease {
    Lease(Some(h), Some(now), Some(LEASE_SECONDS))
  }

  predicate Busy(l: Lease, now: Time) {
    l.holder.Some? && l.renewTime.Some? && l.seconds.Some? && now < l.renewTime.value + l.seconds.value
  }

  /** A term lasts sixty seconds; a lease without holder, without a time or without a length is free. */
  lemma TermsLastSixtySeconds(l: Lease, h: Holder, taken: Time, now: Time)
    ensures Busy(Taken(h, taken), now) <==> now < taken + 60
    ensures !Busy(l.(holder := None), now) && !Busy(l.(renewTime := None), now) && !Busy(l.(seconds := None), now)
    ensures l.holder.Some? && l.renewTime.Some? && l.seconds.Some? ==>
              (Busy(l, now) <==> now - l.renewTime.value < l.seconds.value)
  {
  }

  /** Free to take, as seen by a reader of the first `seen` versions. */
  predicate FreeAt(versions: seq<Lease>, seen: nat, now: Time)
    requires seen <= |versions|
  {
    seen == 0 || !Busy(versions[seen - 1], now)
  }

  datatype Reply = Accepted | Lost | Refused | Stale

  datatype AcquireError = ContextDone | StillBusy | ReadFailed | WriteFailed

  /**
   What one attempt meets: the clock, how old its read is or that it fails, and what a matching
   write would answer.
   */
  datatype Attempt = Attempt(now: Time, behind: nat, readFails: bool, reply: Reply, cancelled: bool) {
    /** Nothing but the lease itself stands in the way. */
    predicate Clear(deadline: Time) {
      !cancelled && now <= deadline && !readFails && behind == 0 && reply == Accepted
    }
  }

  /** A write on top of the version that was read: a stale base is refused, an answer may be lost. */
  function PutOn(versions: seq<Lease>, base: nat, l: Lease, reply: Reply): (seq<Lease>, Reply) {
    if base != |versions| then (versions, Stale)
    else if reply == Accepted || reply == Lost then (versions + [l], reply)
    else (versions, Refused)
  }

  function BaseOf(versions: seq<Lease>, behind: nat): (base: nat)
    ensures base <= |versions|
  {
    if behind <= |versions| then |versions| - behind else 0
  }

  /** One attempt to acquire: what it leaves of the versions, and the answer if it got to write. */
  function Attempted(versions: seq<Lease>, h: Holder, a: Attempt, noise: seq<Lease>): (seq<Lease>, Option<Reply>) {
    var base := BaseOf(versions, a.behind);
    if FreeAt(versions, base, a.now) then
      var (after, reply) := PutOn(versions + noise, base, Taken(h, a.now), a.reply);
      (after, Some(reply))
    else (versions + noise, None)
  }

  /** The release: it clears the holder only on top of a version that names its own. */
  function Released(versions: seq<Lease>, h: Holder, behind: nat, noise: seq<Lease>, reply: Reply): seq<Lease> {
    var base := BaseOf(versions, behind);
    if base > 0 && versions[base - 1].holder == Some(h) then
      PutOn(versions + noise, base, versions[base - 1].(holder := None), reply).0
    else versions + noise
  }

  class LeaseStore {
    var versions: seq<Lease>

    constructor ()
      ensures versions == []
    {
      versions := [];
    }

    /** Other replicas run: they only ever add versions. */
    method Interfere(others: seq<Lease>)
      modifies this
      ensures versions == old(versions) + others
    {
      versions := versions + others;
    }

    method Put(base: nat, l: Lease, reply: Reply) returns (r: Reply)
      modifies this
      ensures (versions, r) == PutOn(old(versions), base, l, reply)
    {
      if base != |versions| {
        return Stale;
      }
      match reply {
        case Accepted => versions := versions + [l]; return Accepted;
        case Lost => versions := versions + [l]; return Lost;
        case Refused => return Refused;
        case Stale => return Refused;
      }
    }
  }

  /** Version `at` is a takeover by h: written at a clock reading when the version before it was free. */
  predicate Takeover(versions: seq<Lease>, at: nat, h: Holder, now: Time) {
    at < |versions| && versions[at] == Taken(h, now) && FreeAt(versions, at, now)
  }

  /** The read and the write of one attempt, with what other replicas write in between. */
  method TryOnce(store: LeaseStore, h: Holder, a: Attempt, noise: seq<Lease>)
    returns (reply: Option<Reply>, ghost at: nat)
    modifies store
    ensures (store.versions, reply) == Attempted(old(store.versions), h, a, noise)
    ensures old(store.versions) <= store.versions
    ensures reply == Some(Accepted) ==> Takeover(store.versions, at, h, a.now) && at >= old(|store.versions|)
  {
    var base := BaseOf(store.versions, a.behind);
    at := base;
    if base > 0 && Busy(store.versions[base - 1], a.now) {
      store.Interfere(noise);
      return None, 0;
    }
    ghost var read := store.versions;
    store.Interfere(noise);
    assert base > 0 ==> store.versions[base - 1] == read[base - 1];
    var r := store.Put(base, Taken(h, a.now), a.reply);
    reply := Some(r);
  }

  // ---- the loop, and what each of its answers means ----

  /** The versions when the i-th attempt begins, if those before it wrote nothing. */
  function Before(versions: seq<Lease>, noise: seq<seq<Lease>>, i: nat): seq<Lease>
    requires i <= |noise|
  {
    if i == 0 then versions else Before(versions, noise, i - 1) + noise[i - 1]
  }

  /** An attempt in time that finds the lease held, or is overtaken between its read and its write. */
  predicate GoesRound(versions: seq<Lease>, a: Attempt, noise: seq<Lease>, deadline: Time) {
    var base := BaseOf(versions, a.behind);
    && !a.cancelled && a.now <= deadline && !a.readFails
    && (base != |versions| + |noise| || (base > 0 && Busy(versions[base - 1], a.now)))
  }

  /** An attempt that nothing stands in the way of. */
  predicate GetsThrough(versions: seq<Lease>, a: Attempt, noise: seq<Lease>, deadline: Time) {
    a.Clear(deadline) && noise == [] && (versions != [] ==> !Busy(versions[|versions| - 1], a.now))
  }

  ghost predicate AllGoRound(versions: seq<Lease>, attempts: seq<Attempt>, noise: seq<seq<Lease>>, deadline: Time,
                             n: nat)
    requires n <= |attempts| == |noise|
  {
    forall j :: 0 <= j < n ==> GoesRound(Before(versions, noise, j), attempts[j], noise[j], deadline)
  }

  /** How one turn ends, in time: round again, through, or with an error of the write. */
  lemma AttemptMeans(versions: seq<Lease>, h: Holder, a: Attempt, noise: seq<Lease>, deadline: Time)
    requires !a.cancelled && a.now <= deadline && !a.readFails
    ensures var (after, reply) := Attempted(versions, h, a, noise);
            && (GoesRound(versions, a, noise, deadline) <==> reply == None || reply == Some(Stale))
            && (GoesRound(versions, a, noise, deadline) ==> after == versions + noise)
            && (GetsThrough(versions, a, noise, deadline) ==> reply == Some(Accepted))
            && (reply == Some(Lost) || reply == Some(Refused) ==> a.reply != Accepted)
  {
  }

  /** Only one attempt can be the first that does not go round, and one that gets through is such. */
  lemma FirstThrough(versions: seq<Lease>, attempts: seq<Attempt>, noise: seq<seq<Lease>>, deadline: Time, n: nat,
                     i: nat)
    requires n <= |attempts| == |noise| && i < |attempts|
    requires AllGoRound(versions, attempts, noise, deadline, n) && AllGoRound(versions, attempts, noise, deadline, i)
    requires GetsThrough(Before(versions, noise, i), attempts[i], noise[i], deadline)
    requires n < |attempts| ==> !GoesRound(Before(versions, noise, n), attempts[n], noise[n], deadline)
    ensures i == n
  {
    assert !GoesRound(Before(versions, noise, i), attempts[i], noise[i], deadline);
    assert i <= n;
  }

  /** What in an attempt makes the loop end with this answer. */
  predicate EndsFor(r: Result<Time, AcquireError>, a: Attempt, deadline: Time) {
    match r
    case Ok(t) => t == a.now && !a.cancelled && a.now <= deadline && !a.readFails && a.reply == Accepted
    case Err(ContextDone) => a.cancelled
    case Err(StillBusy) => a.now > deadline
    case Err(ReadFailed) => a.readFails
    case Err(WriteFailed) => a.reply != Accepted
  }

  /** The promise to a caller that only had to wait, when the loop ends at its n-th attempt with this answer. */
  ghost predicate Served(versions: seq<Lease>, attempts: seq<Attempt>, noise: seq<seq<Lease>>, deadline: Time,
                         r: Result<Time, AcquireError>)
    requires |attempts| == |noise|
  {
    forall i :: 0 <= i < |attempts| && AllGoRound(versions, attempts, noise, deadline, i) &&
                GetsThrough(Before(versions, noise, i), attempts[i], noise[i], deadline) ==>
                  r == Ok(attempts[i].now)
  }

  lemma EndsAt(versions: seq<Lease>, attempts: seq<Attempt>, noise: seq<seq<Lease>>, deadline: Time, n: nat,
               r: Result<Time, AcquireError>)
    requires n <= |attempts| == |noise| && AllGoRound(versions, attempts, noise, deadline, n)
    requires n < |attempts| ==>
               && !GoesRound(Before(versions, noise, n), attempts[n], noise[n], deadline)
               && (GetsThrough(Before(versions, noise, n), attempts[n], noise[n], deadline) ==>
                     r == Ok(attempts[n].now))
    ensures Served(versions, attempts, noise, deadline, r)
  {
    forall i | 0 <= i < |attempts| && AllGoRound(versions, attempts, noise, deadline, i) &&
               GetsThrough(Before(versions, noise, i), attempts[i], noise[i], deadline)
      ensures r == Ok(attempts[i].now)
    {
      FirstThrough(versions, attempts, noise, deadline, n, i);
    }
  }

  /**
   The acquire loop: attempts until one is accepted, fails, or time is up. On
   success the version written is a takeover of exactly the version that was
   read. A caller that only had to wait gets the lease at the first attempt that
   can, and each error has its own cause.
   */
  method Acquire(store: LeaseStore, h: Holder, deadline: Time, attempts: seq<Attempt>, noise: seq<seq<Lease>>)
    returns (r: Result<Time, AcquireError>, ghost at: nat)
    requires |noise| == |attempts|
    modifies store
    ensures old(store.versions) <= store.versions
    ensures r.Ok? ==> Takeover(store.versions, at, h, r.value) && at >= old(|store.versions|)
    ensures Served(old(store.versions), attempts, noise, deadline, r)
    ensures r != Err(ContextDone) ==> exists i :: 0 <= i < |attempts| && EndsFor(r, attempts[i], deadline)
    ensures r == Err(ContextDone) ==>
              || (exists i :: 0 <= i < |attempts| && attempts[i].cancelled)
              || AllGoRound(old(store.versions), attempts, noise, deadline, |attempts|)
  {
    at := 0;
    ghost var start := store.versions;
    for i := 0 to |attempts|
      invariant store.versions == Before(start, noise, i) && start <= store.versions
      invariant AllGoRound(start, attempts, noise, deadline, i)
    {
      var end;
      end, at := TakeTurn(store, h, deadline, attempts[i], noise[i]);
      if end.Some? {
        EndsAt(start, attempts, noise, deadline, i, end.value);
        return end.value, at;
      }
    }
    EndsAt(start, attempts, noise, deadline, |attempts|, Err(ContextDone));
    return Err(ContextDone), 0;
  }

  /** The body of the loop; None stands for another round. */
  method TakeTurn(store: LeaseStore, h: Holder, deadline: Time, a: Attempt, noise: seq<Lease>)
    returns (end: Option<Result<Time, AcquireError>>, ghost at: nat)
    modifies store
    ensures old(store.versions) <= store.versions
    ensures end == None <==> GoesRound(old(store.versions), a, noise, deadline)
    ensures end == None ==> store.versions == old(store.versions) + noise
    ensures GetsThrough(old(store.versions), a, noise, deadline) ==> end == Some(Ok(a.now))
    ensures end.Some? ==> EndsFor(end.value, a, deadline)
    ensures end == Some(Ok(a.now)) ==> Takeover(store.versions, at, h, a.now) && at >= old(|store.versions|)
  {
    at := 0;
    if a.cancelled {
      return Some(Err(ContextDone)), 0;
    }
    if a.now > deadline {
      return Some(Err(StillBusy)), 0;
    }
    if a.readFails {
      return Some(Err(ReadFailed)), 0;
    }
    AttemptMeans(store.versions, h, a, noise, deadline);
    var reply;
    reply, at := TryOnce(store, h, a, noise);
    match reply {
      case Some(Accepted) => return Some(Ok(a.now)), at;
      case Some(Lost) => return Some(Err(WriteFailed)), 0;
      case Some(Refused) => return Some(Err(WriteFailed)), 0;
      case Some(Stale) => return None, 0;
      case None => return None, 0;
    }
  }

  /** The closure that Acquire hands out. */
  method Release(store: LeaseStore, h: Holder, behind: nat, noise: seq<Lease>, reply: Reply)
    modifies store
    ensures store.versions == Released(old(store.versions), h, behind, noise, reply)
    ensures store.versions == old(store.versions) + noise ||
            (noise == [] && old(store.versions) != [] &&
             var last := old(store.versions)[|old(store.versions)| - 1];
             last.holder == Some(h) && store.versions == old(store.versions) + [last.(holder := None)])
    ensures old(store.versions) != [] && old(store.versions)[|old(store.versions)| - 1].holder == Some(h) &&
            behind == 0 && noise == [] && reply == Accepted ==>
              store.versions == old(store.versions) + [old(store.versions)[|old(store.versions)| - 1].(holder := None)]
  {
    var base := BaseOf(store.versions, behind);
    if base == 0 || store.versions[base - 1].holder != Some(h) {
      store.Interfere(noise);
      return;
    }
    var current := store.versions[base - 1];
    store.Interfere(noise);
    var _ := store.Put(base, current.(holder := None), reply);
  }
}
