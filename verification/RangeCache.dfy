/**
 Reading a remote archive by byte ranges through a cache of four large blocks,
 while other goroutines read through the same cache.
 */
module RangeCache {
  import opened Prelude

  type Byte = x: int | 0 <= x < 256

  const BLOCK: nat := 4_194_304
  const BLOCKS: nat := 4

  datatype Response = Response(status: int, body: seq<Byte>, cut: bool) | NoResponse

  datatype ReadError = NegativeOffset | EndOfFile | FetchFailed

  // ---- the archive in blocks ----

  predicate HasBlock(archive: seq<Byte>, i: int) {
    0 <= i && i * BLOCK < |archive|
  }

  function BlockEnd(size: nat, i: int): int {
    Min(i * BLOCK + BLOCK, size)
  }

  function BlockOf(archive: seq<Byte>, i: int): seq<Byte>
    requires HasBlock(archive, i)
  {
    archive[i * BLOCK..BlockEnd(|archive|, i)]
  }

  /**
   A server as section 14 of RFC 9110 allows it: a partial answer holds the
   requested bytes or fewer of them, a full answer holds the whole archive. A
   body that broke off is reported as cut.
   */
  predicate Faithful(archive: seq<Byte>, i: int, r: Response)
    requires HasBlock(archive, i)
  {
    r.Response? && !r.cut ==>
      (r.status == 206 ==> r.body <= BlockOf(archive, i)) && (r.status == 200 ==> r.body == archive)
  }

  /** Answers that other goroutines got for blocks of the same archive. */
  predicate AllFaithful(archive: seq<Byte>, fetched: seq<(int, Response)>) {
    forall k :: 0 <= k < |fetched| ==> HasBlock(archive, fetched[k].0) && Faithful(archive, fetched[k].0, fetched[k].1)
  }

  /** What the adapter keeps of an answer: at most one byte more than it asked for, and only if the length is exact. */
  function Accept(size: nat, i: int, r: Response): Option<seq<Byte>>
    requires 0 <= i && i * BLOCK < size
  {
    var wanted := BlockEnd(size, i) - i * BLOCK;
    if r.NoResponse? || (r.status != 206 && r.status != 200) || r.cut then None
    else
      var b := r.body[..Min(|r.body|, wanted + 1)];
      if |b| != wanted then None else Some(b)
  }

  /** No answer, one that broke off, one of another status, or one of another length than the block. */
  predicate Useless(archive: seq<Byte>, i: int, r: Response) {
    && HasBlock(archive, i)
    && (r.NoResponse? || r.cut || !(r.status in {200, 206}) || |r.body| != |BlockOf(archive, i)|)
  }

  /** Exactly the useless answers are refused, so the block itself as partial content is always taken. */
  lemma RefusedExactly(archive: seq<Byte>, i: int, r: Response)
    requires HasBlock(archive, i)
    ensures Accept(|archive|, i, r) == None <==> Useless(archive, i, r)
    ensures Accept(|archive|, i, Response(206, BlockOf(archive, i), false)) == Some(BlockOf(archive, i))
  {
    assert |BlockOf(archive, i)| == BlockEnd(|archive|, i) - i * BLOCK;
    var whole := BlockOf(archive, i);
    assert whole[..|whole|] == whole;
  }

  ghost predicate SomeUseless(archive: seq<Byte>, i: int, replies: (nat, int) -> Response) {
    exists k: nat :: Useless(archive, i, replies(k, i))
  }

  /**
   An accepted answer is exactly the block. A full-body answer is accepted only
   when the archive is that one block.
   */
  lemma AcceptedIsBlock(archive: seq<Byte>, i: int, r: Response)
    requires HasBlock(archive, i) && Faithful(archive, i, r)
    ensures Accept(|archive|, i, r).Some? ==> Accept(|archive|, i, r).value == BlockOf(archive, i)
    ensures r.Response? && !r.cut && r.status == 200 ==>
              (Accept(|archive|, i, r).Some? <==> i == 0 && |archive| <= BLOCK)
  {
    var wanted := BlockEnd(|archive|, i) - i * BLOCK;
    if r.Response? && !r.cut && r.status == 200 {
      assert |archive| >= i * BLOCK + wanted;
      if i > 0 {
        assert i * BLOCK >= BLOCK;
      }
    }
  }

  // ---- the cache ----

  datatype Cache = Cache(blocks: map<int, seq<Byte>>, order: seq<int>)

  function Insert(c: Cache, i: int, b: seq<Byte>): Cache {
    var blocks, order := c.blocks[i := b], c.order + [i];
    if |order| > BLOCKS then Cache(blocks - {order[0]}, order[1..]) else Cache(blocks, order)
  }

  /** Every cached block is right, and every cached block is on the eviction list, which has room for four. */
  predicate Sound(archive: seq<Byte>, c: Cache) {
    && |c.order| <= BLOCKS
    && (forall i :: i in c.blocks ==> i in c.order && HasBlock(archive, i) && c.blocks[i] == BlockOf(archive, i))
  }

  lemma InsertKeepsSound(archive: seq<Byte>, c: Cache, i: int)
    requires Sound(archive, c) && HasBlock(archive, i)
    ensures Sound(archive, Insert(c, i, BlockOf(archive, i)))
    ensures |Insert(c, i, BlockOf(archive, i)).blocks| <= 4
  {
    var after := Insert(c, i, BlockOf(archive, i));
    forall k | k in after.blocks
      ensures k in after.order && HasBlock(archive, k) && after.blocks[k] == BlockOf(archive, k) {
      var all := c.order + [i];
      assert all[|all| - 1] == i && all == [all[0]] + all[1..];
      assert k != i ==> k in c.order;
      assert k in all;
    }
    FewMembers(after.order);
    var keys: set<int> := after.blocks.Keys;
    assert forall k :: k in keys ==> k in Members(after.order);
    assert keys <= Members(after.order);
    assert Members(after.order) == keys + (Members(after.order) - keys);
  }

  function Members(q: seq<int>): set<int> {
    set x | x in q
  }

  lemma {:induction false} FewMembers(q: seq<int>)
    ensures |Members(q)| <= |q|
  {
    if q == [] {
      assert Members(q) == {};
    } else {
      var k := |q| - 1;
      FewMembers(q[..k]);
      assert q == q[..k] + [q[k]];
      assert Members(q) == Members(q[..k]) + {q[k]};
    }
  }

  /** First in, first out, when nobody else inserts: the list and the blocks name the same indices. */
  ghost predicate Exact(c: Cache) {
    && (forall i :: i in c.order <==> i in c.blocks)
    && (forall j, k :: 0 <= j < k < |c.order| ==> c.order[j] != c.order[k])
  }

  /** A miss evicts the oldest block and nothing else. */
  lemma MissEvictsOldest(c: Cache, i: int, b: seq<Byte>)
    requires Exact(c) && |c.order| <= 4 && i !in c.blocks
    ensures var after := Insert(c, i, b);
            && Exact(after) && i in after.blocks && after.blocks[i] == b
            && (|c.order| < 4 ==> after.order == c.order + [i] && after.blocks == c.blocks[i := b])
            && (|c.order| == 4 ==> after.order == c.order[1..] + [i] &&
                                   after.blocks == (c.blocks - {c.order[0]})[i := b])
  {
    var all, more := c.order + [i], c.blocks[i := b];
    assert Exact(Cache(more, all)) by {
      assert forall x :: x in all <==> x in c.order || x == i;
    }
    if |c.order| == BLOCKS {
      OldestGone(Cache(more, all));
      assert all[1..] == c.order[1..] + [i];
      assert c.order[0] in c.order;
    }
  }

  lemma OldestGone(c: Cache)
    requires Exact(c) && c.order != []
    ensures Exact(Cache(c.blocks - {c.order[0]}, c.order[1..]))
  {
    assert c.order == [c.order[0]] + c.order[1..];
    assert c.order[0] !in c.order[1..];
  }

  /** A filled part followed by the bytes after it is a longer filled part. */
  lemma FilledFurther(archive: seq<Byte>, off: nat, pos: nat, end: nat, done: seq<Byte>, all: seq<Byte>)
    requires off <= pos <= end <= |archive| && done == archive[off..pos]
    requires |all| == end - off && all[..pos - off] == done && all[pos - off..] == archive[pos..end]
    ensures all == archive[off..end]
  {
    assert all == all[..pos - off] + all[pos - off..];
    assert archive[off..end] == archive[off..pos] + archive[pos..end];
  }

  class HttpReaderAt {
    const size: nat
    ghost const archive: seq<Byte>
    var blocks: map<int, seq<Byte>>
    var order: seq<int>

    ghost predicate Valid()
      reads this
    {
      size == |archive| && Sound(archive, Cache(blocks, order))
    }

    constructor (size: nat, ghost archive: seq<Byte>)
      requires size == |archive|
      ensures Valid() && this.size == size && this.archive == archive
    {
      this.size, this.archive := size, archive;
      blocks, order := map[], [];
    }

    method Store(i: int, b: seq<Byte>)
      modifies this`blocks, this`order
      ensures Cache(blocks, order) == Insert(old(Cache(blocks, order)), i, b)
    {
      blocks := blocks[i := b];
      order := order + [i];
      if |order| > BLOCKS {
        blocks := blocks - {order[0]};
        order := order[1..];
      }
    }

    /** Other goroutines, which fetched these blocks, store them while the lock is free. */
    method Interfere(fetched: seq<(int, Response)>)
      requires Valid()
      requires AllFaithful(archive, fetched)
      modifies this`blocks, this`order
      ensures Valid()
    {
      for k := 0 to |fetched|
        invariant Valid()
      {
        var (i, r) := fetched[k];
        var b := Accept(size, i, r);
        if b.Some? {
          AcceptedIsBlock(archive, i, r);
          InsertKeepsSound(archive, Cache(blocks, order), i);
          Store(i, b.value);
        }
      }
    }

    method Block(i: int, reply: Response, meanwhile: seq<(int, Response)>) returns (b: Result<seq<Byte>, ReadError>)
      requires Valid() && HasBlock(archive, i) && Faithful(archive, i, reply)
      requires AllFaithful(archive, meanwhile)
      modifies this`blocks, this`order
      ensures Valid()
      ensures b.Ok? ==> b.value == BlockOf(archive, i)
      ensures b.Err? <==> i !in old(blocks) && Useless(archive, i, reply)
      ensures b.Err? ==> b.error == FetchFailed
      ensures i in old(blocks) ==> b.Ok? && blocks == old(blocks) && order == old(order)
    {
      if i in blocks {
        return Ok(blocks[i]);
      }
      Interfere(meanwhile);
      RefusedExactly(archive, i, reply);
      var answer := Accept(size, i, reply);
      if answer == None {
        return Err(FetchFailed);
      }
      AcceptedIsBlock(archive, i, reply);
      InsertKeepsSound(archive, Cache(blocks, order), i);
      Store(i, answer.value);
      return Ok(answer.value);
    }

    /**
     Fills p from the offset. Whatever is cached and whatever others store before
     each lookup and between a miss and its own store, the bytes written are the
     archive's; EOF comes exactly when the archive ends before p is full, and a
     read fails only for a useless answer to one of its own requests.
     */
    method ReadAt(p: array<Byte>, off: int, replies: (nat, int) -> Response, before: nat -> seq<(int, Response)>,
                  others: nat -> seq<(int, Response)>)
      returns (n: nat, err: Option<ReadError>)
      requires Valid()
      requires forall k: nat :: AllFaithful(archive, before(k))
      requires forall k: nat, i: int :: HasBlock(archive, i) ==> Faithful(archive, i, replies(k, i))
      requires forall k: nat :: AllFaithful(archive, others(k))
      modifies this`blocks, this`order, p
      ensures Valid()
      ensures n <= p.Length && p[n..] == old(p[n..])
      ensures off < 0 ==> n == 0 && err == Some(NegativeOffset)
      ensures off >= 0 ==> off + n <= |archive| || n == 0
      ensures off >= 0 && n > 0 ==> p[..n] == archive[off..off + n]
      ensures off >= 0 && err == None ==> n == p.Length
      ensures off >= 0 && err == Some(EndOfFile) ==> n < p.Length && n == if off < |archive| then |archive| - off else 0
      ensures off >= 0 && err != None && err != Some(EndOfFile) ==>
                n < p.Length && off + n < |archive| && SomeUseless(archive, (off + n) / BLOCK, replies)
      ensures off >= 0 && (forall k: nat, i: int :: !Useless(archive, i, replies(k, i))) ==>
                && (err == None || err == Some(EndOfFile))
                && n == Min(p.Length, if off < |archive| then |archive| - off else 0)
    {
      if off < 0 {
        return 0, Some(NegativeOffset);
      }
      n, err := 0, None;
      var calls: nat := 0;
      while n < p.Length
        invariant Valid() && n <= p.Length
        invariant n > 0 ==> off + n <= |archive| && p[..n] == archive[off..off + n]
        invariant p[n..] == old(p[n..]) && err == None
      {
        var pos := off + n;
        if pos >= size {
          return n, Some(EndOfFile);
        }
        assert HasBlock(archive, pos / BLOCK);
        Interfere(before(calls));
        var count;
        count, err := ReadOn(p, off, n, replies(calls, pos / BLOCK), others(calls));
        if err != None {
          return;
        }
        calls := calls + 1;
        n := n + count;
      }
    }

    /** One turn of the loop: more of the buffer from one block. */
    method ReadOn(p: array<Byte>, off: nat, n: nat, reply: Response, meanwhile: seq<(int, Response)>)
      returns (count: nat, err: Option<ReadError>)
      requires Valid() && n < p.Length && off + n < |archive| && p[..n] == archive[off..off + n]
      requires HasBlock(archive, (off + n) / BLOCK) && Faithful(archive, (off + n) / BLOCK, reply)
      requires AllFaithful(archive, meanwhile)
      modifies this`blocks, this`order, p
      ensures Valid()
      ensures err == None ==> 0 < count && n + count <= p.Length && off + n + count <= |archive|
      ensures err == None ==> p[..n + count] == archive[off..off + n + count] && p[n + count..] == old(p[n + count..])
      ensures err != None ==>
                err == Some(FetchFailed) && Useless(archive, (off + n) / BLOCK, reply) && p[..] == old(p[..])
    {
      var tail := TailAt(off + n, reply, meanwhile);
      if tail.Err? {
        return 0, Some(tail.error);
      }
      ghost var done := p[..n];
      count := CopyInto(p, n, tail.value);
      ghost var all := p[..n + count];
      assert all[..n] == p[..n] && all[n..] == p[n..n + count];
      assert tail.value[..count] == archive[off + n..off + n + count];
      FilledFurther(archive, off, off + n, off + n + count, done, all);
      err := None;
    }

    /** The block that holds a position, from that position on. */
    method TailAt(pos: nat, reply: Response, meanwhile: seq<(int, Response)>)
      returns (tail: Result<seq<Byte>, ReadError>)
      requires Valid() && pos < size && HasBlock(archive, pos / BLOCK) && Faithful(archive, pos / BLOCK, reply)
      requires AllFaithful(archive, meanwhile)
      modifies this`blocks, this`order
      ensures Valid()
      ensures tail.Ok? ==> tail.value != [] && pos + |tail.value| <= |archive| &&
                           tail.value == archive[pos..pos + |tail.value|]
      ensures tail.Err? ==> tail.error == FetchFailed && Useless(archive, pos / BLOCK, reply)
    {
      var b := Block(pos / BLOCK, reply, meanwhile);
      if b.Err? {
        return Err(b.error);
      }
      BlockTail(archive, pos);
      return Ok(b.value[pos % BLOCK..]);
    }

    /** Go's copy into p[n:]: as much as fits. */
    method CopyInto(p: array<Byte>, n: nat, src: seq<Byte>) returns (count: nat)
      requires n <= p.Length
      modifies p
      ensures count == Min(p.Length - n, |src|)
      ensures p[..n] == old(p[..n]) && p[n..n + count] == src[..count] && p[n + count..] == old(p[n + count..])
    {
      count := Min(p.Length - n, |src|);
      for k := 0 to count
        invariant p[..n] == old(p[..n]) && p[n..n + k] == src[..k] && p[n + k..] == old(p[n + k..])
      {
        p[n + k] := src[k];
        assert p[n..n + k + 1] == p[n..n + k] + [src[k]];
      }
    }
  }

  /** Reading on from the middle of a block. */
  lemma BlockTail(archive: seq<Byte>, pos: nat)
    requires pos < |archive| && HasBlock(archive, pos / BLOCK)
    ensures var tail := |BlockOf(archive, pos / BLOCK)| - pos % BLOCK;
            0 < tail && pos + tail <= |archive| &&
            BlockOf(archive, pos / BLOCK)[pos % BLOCK..] == archive[pos..pos + tail]
  {
  }
}
