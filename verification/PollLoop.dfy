/**
 The Telegram long-polling loop: bounded in-place retries over batches that the
 server cuts as it likes. Whatever the batches are, the loop does what a plain
 queue would do: try the first update until it succeeds or has failed five times.
 */
module PollLoop {
  import opened Prelude

  const MAX_UPDATE_ATTEMPTS: nat := 5

  datatype Attempt = Attempt(id: int, ok: bool)

  // ---- the plain queue ----

  /** The next update to serve, and how often it has failed. */
  datatype Progress = Progress(next: nat, fails: nat)

  /** Updates as the server numbers them. */
  predicate Numbered(queue: seq<int>) {
    (forall i :: 0 <= i < |queue| ==> queue[i] > 0) && (forall i, j :: 0 <= i < j < |queue| ==> queue[i] < queue[j])
  }

  function Advance(p: Progress, ok: bool): Progress {
    if ok || p.fails + 1 >= MAX_UPDATE_ATTEMPTS then Progress(p.next + 1, 0) else Progress(p.next, p.fails + 1)
  }

  /** Progress after n attempts, the k-th of which has the k-th outcome. */
  function After(outcomes: nat -> bool, n: nat): Progress {
    if n == 0 then Progress(0, 0) else Advance(After(outcomes, n - 1), outcomes(n - 1))
  }

  /** The first n attempts all had an update to serve. */
  predicate Served(queue: seq<int>, outcomes: nat -> bool, n: nat) {
    n == 0 || After(outcomes, n - 1).next < |queue|
  }

  lemma {:induction false} ProgressGrows(outcomes: nat -> bool, m: nat, n: nat)
    requires m <= n
    ensures After(outcomes, m).next <= After(outcomes, n).next
  {
    if m < n {
      ProgressGrows(outcomes, m, n - 1);
    }
  }

  function Log(queue: seq<int>, outcomes: nat -> bool, n: nat): seq<Attempt>
    requires Served(queue, outcomes, n)
  {
    if n == 0 then []
    else
      ProgressGrows(outcomes, if n >= 2 then n - 2 else 0, n - 1);
      Log(queue, outcomes, n - 1) + [Attempt(queue[After(outcomes, n - 1).next], outcomes(n - 1))]
  }

  /** What one more attempt adds. */
  lemma LogStep(queue: seq<int>, outcomes: nat -> bool, n: nat)
    requires Served(queue, outcomes, n) && After(outcomes, n).next < |queue|
    ensures After(outcomes, n + 1) == Advance(After(outcomes, n), outcomes(n)) && Served(queue, outcomes, n + 1)
    ensures Log(queue, outcomes, n + 1) == Log(queue, outcomes, n)
                                           + [Attempt(queue[After(outcomes, n).next], outcomes(n))]
  {
  }

  /** Later arrivals do not change what was done before. */
  lemma {:induction false} LogOfLonger(queue: seq<int>, more: seq<int>, outcomes: nat -> bool, n: nat)
    requires Served(queue, outcomes, n)
    ensures Served(queue + more, outcomes, n) && Log(queue + more, outcomes, n) == Log(queue, outcomes, n)
  {
    if n > 0 {
      ProgressGrows(outcomes, if n >= 2 then n - 2 else 0, n - 1);
      LogOfLonger(queue, more, outcomes, n - 1);
    }
  }

  // ---- what the plain queue guarantees ----

  function CountOf(log: seq<Attempt>, id: int): nat {
    if log == [] then 0 else CountOf(log[..|log| - 1], id) + if log[|log| - 1].id == id then 1 else 0
  }

  function SuccessesOf(log: seq<Attempt>, id: int): nat {
    if log == [] then 0 else SuccessesOf(log[..|log| - 1], id) + if log[|log| - 1] == Attempt(id, true) then 1 else 0
  }

  /** Update number k after n attempts: not yet tried, being retried, handled once, or given up after five failures. */
  lemma {:induction false} Fate(queue: seq<int>, outcomes: nat -> bool, n: nat, k: nat)
    requires Numbered(queue) && Served(queue, outcomes, n) && k < |queue|
    ensures var log, p := Log(queue, outcomes, n), After(outcomes, n);
            var tries, wins := CountOf(log, queue[k]), SuccessesOf(log, queue[k]);
            && p.fails < MAX_UPDATE_ATTEMPTS
            && (k > p.next ==> tries == 0 && wins == 0)
            && (k == p.next ==> tries == p.fails && wins == 0)
            && (k < p.next ==> (wins == 1 && 1 <= tries <= 5) || (wins == 0 && tries == 5))
  {
    if n > 0 {
      ProgressGrows(outcomes, if n >= 2 then n - 2 else 0, n - 1);
      Fate(queue, outcomes, n - 1, k);
      var log, before := Log(queue, outcomes, n), Log(queue, outcomes, n - 1);
      assert log[..|log| - 1] == before;
    }
  }

  /** Updates are tried in the order of their numbers. */
  lemma {:induction false} InOrder(queue: seq<int>, outcomes: nat -> bool, n: nat, i: nat, j: nat)
    requires Numbered(queue) && Served(queue, outcomes, n) && i <= j < n
    ensures |Log(queue, outcomes, n)| == n && Log(queue, outcomes, n)[i].id <= Log(queue, outcomes, n)[j].id
  {
    ProgressGrows(outcomes, if n >= 2 then n - 2 else 0, n - 1);
    EntryOf(queue, outcomes, n, i);
    EntryOf(queue, outcomes, n, j);
    ProgressGrows(outcomes, i, j);
    ProgressGrows(outcomes, j, n - 1);
  }

  lemma {:induction false} EntryOf(queue: seq<int>, outcomes: nat -> bool, n: nat, i: nat)
    requires Served(queue, outcomes, n) && i < n
    ensures |Log(queue, outcomes, n)| == n && After(outcomes, i).next < |queue|
    ensures Log(queue, outcomes, n)[i] == Attempt(queue[After(outcomes, i).next], outcomes(i))
  {
    ProgressGrows(outcomes, if n >= 2 then n - 2 else 0, n - 1);
    if i < n - 1 {
      EntryOf(queue, outcomes, n - 1, i);
    } else if n > 1 {
      EntryOf(queue, outcomes, n - 1, 0);
    }
  }

  /** n attempts finish at least n / 5 updates, so m updates take at most 5 m attempts. */
  lemma {:induction false} AttemptsBounded(outcomes: nat -> bool, n: nat)
    ensures var p := After(outcomes, n);
            p.next + p.fails <= n <= 5 * p.next + p.fails && p.fails < MAX_UPDATE_ATTEMPTS
  {
    if n > 0 {
      AttemptsBounded(outcomes, n - 1);
    }
  }

  // ---- the loop ----

  /** One turn of the loop: what has arrived since, whether the request failed, how many updates it returned. */
  datatype Turn = Turn(arrived: seq<int>, failed: bool, returned: nat)

  /** The server's answer: the oldest updates not below the offset. */
  function FromOffset(queue: seq<int>, offset: int): seq<int> {
    if queue == [] || queue[0] >= offset then queue else FromOffset(queue[1..], offset)
  }

  lemma {:induction false} FromOffsetIs(queue: seq<int>, offset: int, k: nat)
    requires Numbered(queue) && k <= |queue|
    requires k > 0 ==> queue[k - 1] < offset
    requires k < |queue| ==> queue[k] >= offset
    ensures FromOffset(queue, offset) == queue[k..]
  {
    if k > 0 {
      assert queue[0] < offset;
      FromOffsetIs(queue[1..], offset, k - 1);
    }
  }

  class Poller {
    var offset: int
    var failingUpdateId: int
    var failureCount: nat
    ghost var tried: nat
    ghost var log: seq<Attempt>

    constructor ()
      ensures offset == 0 && failingUpdateId == 0 && failureCount == 0 && tried == 0 && log == []
    {
      offset, failingUpdateId, failureCount := 0, 0, 0;
      tried, log := 0, [];
    }

    /** The loop's variables stand for this progress of the plain queue. */
    ghost predicate Stands(queue: seq<int>, p: Progress)
      reads this`offset, this`failingUpdateId, this`failureCount
    {
      && p.next <= |queue|
      && offset == (if p.next == 0 then 0 else queue[p.next - 1] + 1)
      && (if p.fails == 0 then failingUpdateId == 0 && failureCount == 0
          else p.next < |queue| && failingUpdateId == queue[p.next] && failureCount == p.fails)
    }

    /** They stand for the progress after the attempts made, which are those of the plain queue. */
    ghost predicate Matches(queue: seq<int>, outcomes: nat -> bool)
      reads this
    {
      && Numbered(queue) && Served(queue, outcomes, tried)
      && log == Log(queue, outcomes, tried)
      && Stands(queue, After(outcomes, tried))
    }

    ghost function Next(outcomes: nat -> bool): nat
      reads this
    {
      After(outcomes, tried).next
    }

    /** handleUpdate, with its outcome given from outside. */
    method Handle(id: int, outcomes: nat -> bool, attempt: nat) returns (ok: bool)
      requires attempt == tried
      modifies this`tried, this`log
      ensures tried == old(tried) + 1 && ok == outcomes(attempt) && log == old(log) + [Attempt(id, ok)]
    {
      ok := outcomes(attempt);
      tried, log := tried + 1, log + [Attempt(id, ok)];
    }

    /** What follows one call of handleUpdate; says whether the batch is abandoned. */
    method Settle(id: int, ok: bool, ghost queue: seq<int>, ghost p: Progress) returns (stop: bool)
      requires Numbered(queue) && Stands(queue, p) && p.next < |queue| && id == queue[p.next]
      requires p.fails < MAX_UPDATE_ATTEMPTS
      modifies this`offset, this`failingUpdateId, this`failureCount
      ensures Stands(queue, Advance(p, ok)) && offset >= old(offset)
      ensures stop <==> Advance(p, ok).next == p.next
    {
      if !ok {
        if id == failingUpdateId {
          failureCount := failureCount + 1;
        } else {
          failingUpdateId, failureCount := id, 1;
        }
        if failureCount >= MAX_UPDATE_ATTEMPTS {
          if id >= offset {
            offset := id + 1;
          }
          failingUpdateId, failureCount := 0, 0;
          return false;
        }
        return true;
      }
      if id == failingUpdateId {
        failingUpdateId, failureCount := 0, 0;
      }
      if id >= offset {
        offset := id + 1;
      }
      return false;
    }

    /** The body of the loop for one answer; returns how many attempts were made. */
    method ProcessBatch(updates: seq<int>, outcomes: nat -> bool, made: nat, ghost queue: seq<int>)
      returns (attempts: nat)
      requires Matches(queue, outcomes) && made == tried
      requires Next(outcomes) + |updates| <= |queue| && updates == queue[Next(outcomes)..Next(outcomes) + |updates|]
      modifies this
      ensures Matches(queue, outcomes) && tried == made + attempts
      ensures offset >= old(offset)
      ensures updates != [] ==> attempts > 0
      ensures attempts <= |updates| && Next(outcomes) <= old(Next(outcomes)) + |updates|
    {
      attempts := 0;
      ghost var start := Next(outcomes);
      for i := 0 to |updates|
        invariant Matches(queue, outcomes) && tried == made + attempts && attempts == i
        invariant Next(outcomes) == start + i && offset >= old(offset)
      {
        var stop := Serve(updates[i], outcomes, made + attempts, queue);
        attempts := attempts + 1;
        if stop {
          break;
        }
      }
    }

    /** One update of the batch: the attempt and what follows from it; says whether the batch is abandoned. */
    method Serve(id: int, outcomes: nat -> bool, attempt: nat, ghost queue: seq<int>) returns (stop: bool)
      requires Matches(queue, outcomes) && attempt == tried
      requires Next(outcomes) < |queue| && id == queue[Next(outcomes)]
      modifies this
      ensures Matches(queue, outcomes) && tried == attempt + 1 && offset >= old(offset)
      ensures Next(outcomes) == old(Next(outcomes)) + if stop then 0 else 1
    {
      ghost var p := After(outcomes, tried);
      AttemptsBounded(outcomes, tried);
      LogStep(queue, outcomes, tried);
      var ok := Handle(id, outcomes, attempt);
      stop := Settle(id, ok, queue, p);
    }

    /** One turn of the loop: what has arrived, then perhaps an answer of some of it. */
    method TakeTurn(turn: Turn, outcomes: nat -> bool, queue: seq<int>, made: nat)
      returns (arrived: seq<int>, attempts: nat)
      requires Matches(queue, outcomes) && made == tried && Numbered(queue + turn.arrived)
      modifies this
      ensures arrived == queue + turn.arrived && Matches(arrived, outcomes) && tried == made + attempts
      ensures offset >= old(offset)
      ensures !turn.failed && turn.returned > 0 && old(Next(outcomes)) < |arrived| ==> attempts > 0
    {
      arrived, attempts := queue + turn.arrived, 0;
      LogOfLonger(queue, turn.arrived, outcomes, tried);
      assert Matches(arrived, outcomes);
      if turn.failed {
        return;
      }
      FromOffsetIs(arrived, offset, Next(outcomes));
      var answer := FromOffset(arrived, offset);
      attempts := ProcessBatch(answer[..Min(turn.returned, |answer|)], outcomes, made, arrived);
    }

    /** The whole loop: any arrivals, any failed requests, any batch sizes. */
    method Poll(turns: seq<Turn>, outcomes: nat -> bool) returns (queue: seq<int>, made: nat)
      requires Matches([], outcomes) && tried == 0
      requires Numbered(AllArrived(turns))
      modifies this
      ensures queue == AllArrived(turns) && Matches(queue, outcomes) && tried == made
    {
      queue, made := [], 0;
      for i := 0 to |turns|
        invariant queue == AllArrived(turns[..i]) && Matches(queue, outcomes) && tried == made
      {
        ArrivalsPrefix(turns, i + 1);
        assert turns[..i + 1][..i] == turns[..i];
        var attempts;
        queue, attempts := TakeTurn(turns[i], outcomes, queue, made);
        made := made + attempts;
      }
      assert turns[..|turns|] == turns;
    }
  }

  /** Everything that has arrived, in order. */
  function AllArrived(turns: seq<Turn>): seq<int> {
    if turns == [] then [] else AllArrived(turns[..|turns| - 1]) + turns[|turns| - 1].arrived
  }

  lemma {:induction false} ArrivalsPrefix(turns: seq<Turn>, n: nat)
    requires n <= |turns| && Numbered(AllArrived(turns))
    ensures AllArrived(turns[..n]) <= AllArrived(turns) && Numbered(AllArrived(turns[..n]))
    decreases |turns|
  {
    if n < |turns| {
      var shorter := turns[..|turns| - 1];
      assert AllArrived(shorter) <= AllArrived(turns);
      assert Numbered(AllArrived(shorter)) by {
        assert forall i :: 0 <= i < |AllArrived(shorter)| ==> AllArrived(shorter)[i] == AllArrived(turns)[i];
      }
      ArrivalsPrefix(shorter, n);
      assert shorter[..n] == turns[..n];
    } else {
      assert turns[..n] == turns;
    }
  }
}
