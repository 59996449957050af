/**
 The Telegram album collector. The program keeps a map of pending albums and a
 list of their names; what it does is what one list of albums, oldest first, does.
 */
module Albums {
  const MAX_PENDING_ALBUMS: nat := 32
  const MAX_ALBUM_ITEMS: nat := 10

  datatype Message = Message(group: string, id: int)
  datatype Album = Album(group: string, messages: seq<Message>)

  /** What can happen to the collector; a timer may fire at any time, for any group, also late. */
  datatype Event = Arrives(message: Message) | TimerFires(group: string) | Closes

  // ---- one list of albums ----

  datatype Desk = Desk(pending: seq<Album>, closed: bool, sent: seq<Album>)

  ghost function Groups(albums: seq<Album>): seq<string> {
    seq(|albums|, i requires 0 <= i < |albums| => albums[i].group)
  }

  /** Where the album of a group is, or the length of the list. */
  ghost function Find(albums: seq<Album>, group: string): (k: nat)
    ensures k <= |albums|
    ensures if k < |albums| then albums[k].group == group else forall a <- albums :: a.group != group
  {
    if i: nat :| i < |albums| && albums[i].group == group then i else |albums|
  }

  ghost predicate Distinct(albums: seq<Album>) {
    forall i, j :: 0 <= i < j < |albums| ==> albums[i].group != albums[j].group
  }

  lemma FoundAt(albums: seq<Album>, k: nat)
    requires Distinct(albums) && k < |albums|
    ensures Find(albums, albums[k].group) == k
  {
    var j := Find(albums, albums[k].group);
  }

  ghost function Send(d: Desk, k: nat): Desk
    requires k < |d.pending|
  {
    d.(pending := d.pending[..k] + d.pending[k + 1..], sent := d.sent + [d.pending[k]])
  }

  /** An open collector takes every message whose album is not full. */
  ghost predicate Takes(d: Desk, m: Message) {
    var k := Find(d.pending, m.group);
    !d.closed && (k < |d.pending| ==> |d.pending[k].messages| < MAX_ALBUM_ITEMS)
  }

  ghost function Collect(d: Desk, m: Message): Desk {
    var k := Find(d.pending, m.group);
    if !Takes(d, m) then d
    else if k < |d.pending| then d.(pending := d.pending[k := Album(m.group, d.pending[k].messages + [m])])
    else
      var room := if |d.pending| >= MAX_PENDING_ALBUMS then Send(d, 0) else d;
      room.(pending := room.pending + [Album(m.group, [m])])
  }

  ghost function Fire(d: Desk, group: string): Desk {
    var k := Find(d.pending, group);
    if k < |d.pending| then Send(d, k) else d
  }

  lemma FireFirst(d: Desk)
    requires Distinct(d.pending) && d.pending != []
    ensures Fire(d, d.pending[0].group) == Desk(d.pending[1..], d.closed, d.sent + [d.pending[0]])
  {
    FoundAt(d.pending, 0);
  }

  ghost function Close(d: Desk): Desk {
    Desk([], true, d.sent + d.pending)
  }

  ghost function Next(d: Desk, e: Event): Desk {
    match e
    case Arrives(m) => Collect(d, m)
    case TimerFires(group) => Fire(d, group)
    case Closes => Close(d)
  }

  ghost function After(events: seq<Event>): Desk {
    if events == [] then Desk([], false, []) else Next(After(events[..|events| - 1]), events[|events| - 1])
  }

  // ---- what holds of every run ----

  ghost predicate Orderly(d: Desk) {
    && |d.pending| <= 32
    && (d.closed ==> d.pending == [])
    && Distinct(d.pending)
    && (forall i :: 0 <= i < |d.pending| ==> Proper(d.pending[i]))
    && (forall i :: 0 <= i < |d.sent| ==> Proper(d.sent[i]))
  }

  /** One to ten messages, all of the album's group. */
  ghost predicate Proper(a: Album) {
    1 <= |a.messages| <= 10 && forall m <- a.messages :: m.group == a.group
  }

  /** The messages of one group, album after album. */
  ghost function Of(albums: seq<Album>, group: string): seq<Message> {
    if albums == [] then []
    else Of(albums[..|albums| - 1], group) + if albums[|albums| - 1].group == group then albums[|albums| - 1].messages
         else []
  }

  /** The collector is open, and no album of the message's group already holds ten. */
  ghost predicate HasRoom(d: Desk, m: Message) {
    !d.closed && forall a <- d.pending :: a.group == m.group ==> |a.messages| < 10
  }

  /** Exactly what finds room is taken; the rest changes nothing. */
  lemma TakesExactly(d: Desk, m: Message)
    requires Distinct(d.pending)
    ensures Takes(d, m) <==> HasRoom(d, m)
    ensures !HasRoom(d, m) ==> Collect(d, m) == d
  {
    var k := Find(d.pending, m.group);
    if k < |d.pending| {
      assert d.pending[k] in d.pending;
      forall a <- d.pending | a.group == m.group ensures a == d.pending[k] {
        var i: nat :| i < |d.pending| && d.pending[i] == a;
        FoundAt(d.pending, i);
      }
    }
  }

  /** The messages of a group that found an open collector and an album with room, in order of arrival. */
  ghost function Taken(events: seq<Event>, group: string): seq<Message> {
    if events == [] then []
    else
      var earlier := events[..|events| - 1];
      var e := events[|events| - 1];
      Taken(earlier, group) + if e.Arrives? && e.message.group == group &&
                                 HasRoom(After(earlier), e.message) then [e.message] else []
  }

  lemma {:induction false} OfConcat(a: seq<Album>, b: seq<Album>, group: string)
    ensures Of(a + b, group) == Of(a, group) + Of(b, group)
  {
    if b == [] {
      assert a + b == a;
    } else {
      assert (a + b)[..|a + b| - 1] == a + b[..|b| - 1];
      OfConcat(a, b[..|b| - 1], group);
    }
  }

  lemma {:induction false} OfOthers(albums: seq<Album>, group: string)
    requires forall i :: 0 <= i < |albums| ==> albums[i].group != group
    ensures Of(albums, group) == []
  {
    if albums != [] {
      OfOthers(albums[..|albums| - 1], group);
    }
  }

  /** A list around its k-th album. */
  lemma OfAround(albums: seq<Album>, k: nat, group: string)
    requires k < |albums|
    ensures Of(albums, group) == Of(albums[..k], group) + Of([albums[k]], group) + Of(albums[k + 1..], group)
  {
    assert albums == albums[..k] + [albums[k]] + albums[k + 1..];
    OfConcat(albums[..k] + [albums[k]], albums[k + 1..], group);
    OfConcat(albums[..k], [albums[k]], group);
  }

  lemma OfOne(a: Album, group: string)
    ensures Of([a], group) == if a.group == group then a.messages else []
  {
    assert [a][..0] == [];
  }

  lemma SendKeepsOrder(d: Desk, k: nat)
    requires Orderly(d) && k < |d.pending|
    ensures Orderly(Send(d, k))
  {
    var left := Send(d, k).pending;
    forall i | 0 <= i < |left| ensures left[i] == d.pending[if i < k then i else i + 1] {}
  }

  /** Sending one album moves its messages to the end of what was sent, in their order. */
  lemma SendConserves(d: Desk, k: nat, group: string)
    requires Orderly(d) && k < |d.pending|
    ensures Of(Send(d, k).sent, group) + Of(Send(d, k).pending, group) == Of(d.sent, group) + Of(d.pending, group)
  {
    var before, it, behind := d.pending[..k], d.pending[k], d.pending[k + 1..];
    OfAround(d.pending, k, group);
    OfConcat(d.sent, [it], group);
    OfConcat(before, behind, group);
    OfOne(it, group);
    if it.group == group {
      OfOthers(before, group);
    }
    Moved(Of(d.sent, group), Of(before, group), Of([it], group), Of(behind, group));
  }

  lemma Moved(s: seq<Message>, b: seq<Message>, i: seq<Message>, h: seq<Message>)
    requires b == [] || i == []
    ensures (s + i) + (b + h) == s + (b + i + h)
  {
  }

  lemma CollectKeepsOrder(d: Desk, m: Message)
    requires Orderly(d)
    ensures Orderly(Collect(d, m))
  {
    var k := Find(d.pending, m.group);
    if k == |d.pending| && |d.pending| >= MAX_PENDING_ALBUMS {
      SendKeepsOrder(d, 0);
    }
    if Takes(d, m) {
      assert Proper(Album(m.group, [m]));
      assert k < |d.pending| ==> Proper(d.pending[k]);
    }
  }

  /** Adding to the k-th album. */
  lemma GrowConserves(albums: seq<Album>, k: nat, m: Message, group: string)
    requires Distinct(albums) && k < |albums| && albums[k].group == m.group
    ensures Of(albums[k := Album(m.group, albums[k].messages + [m])], group) == Of(albums, group) + if m.group == group
                                                                                then [m] else []
  {
    var it := Album(m.group, albums[k].messages + [m]);
    var grown := albums[k := it];
    OfAround(albums, k, group);
    OfAround(grown, k, group);
    assert grown[..k] == albums[..k] && grown[k + 1..] == albums[k + 1..];
    OfOne(albums[k], group);
    OfOne(it, group);
    if m.group == group {
      OfOthers(albums[k + 1..], group);
    }
  }

  lemma CollectConserves(d: Desk, m: Message, group: string)
    requires Orderly(d) && Takes(d, m)
    ensures var after := Collect(d, m);
            Of(after.sent, group) + Of(after.pending, group)
            == Of(d.sent, group) + Of(d.pending, group) + if m.group == group then [m] else []
  {
    var k := Find(d.pending, m.group);
    if k < |d.pending| {
      GrowConserves(d.pending, k, m, group);
    } else {
      if |d.pending| >= MAX_PENDING_ALBUMS {
        SendConserves(d, 0, group);
      }
      var room := if |d.pending| >= MAX_PENDING_ALBUMS then Send(d, 0) else d;
      OpenConserves(room, m, group);
    }
  }

  /** A new album at the end. */
  lemma OpenConserves(room: Desk, m: Message, group: string)
    ensures Of(room.sent, group) + Of(room.pending + [Album(m.group, [m])], group)
         == Of(room.sent, group) + Of(room.pending, group) + if m.group == group then [m] else []
  {
    OfConcat(room.pending, [Album(m.group, [m])], group);
    OfOne(Album(m.group, [m]), group);
  }

  lemma NextKeeps(d: Desk, e: Event, group: string)
    requires Orderly(d)
    ensures Orderly(Next(d, e))
    ensures var after := Next(d, e);
            Of(after.sent, group) + Of(after.pending, group)
            == Of(d.sent, group) + Of(d.pending, group)
            + if e.Arrives? && e.message.group == group && HasRoom(d, e.message) then [e.message] else []
  {
    match e
    case Arrives(m) =>
      CollectKeepsOrder(d, m);
      TakesExactly(d, m);
      if Takes(d, m) {
        CollectConserves(d, m, group);
      }
    case TimerFires(g) =>
      var k := Find(d.pending, g);
      if k < |d.pending| {
        SendKeepsOrder(d, k);
        SendConserves(d, k, group);
      }
    case Closes =>
      OfConcat(d.sent, d.pending, group);
  }

  /** Whatever arrives and whenever timers fire, each message taken is in one album, in order of arrival. */
  lemma {:induction false} EveryMessageIsKeptOnce(events: seq<Event>, group: string)
    ensures Orderly(After(events))
    ensures Of(After(events).sent, group) + Of(After(events).pending, group) == Taken(events, group)
  {
    if events != [] {
      var earlier := events[..|events| - 1];
      EveryMessageIsKeptOnce(earlier, group);
      NextKeeps(After(earlier), events[|events| - 1], group);
    }
  }

  lemma {:induction false} ClosedStays(events: seq<Event>)
    requires Closes in events
    ensures After(events).closed && After(events).pending == []
  {
    EveryMessageIsKeptOnce(events, "");
    if events[|events| - 1] != Closes {
      ClosedStays(events[..|events| - 1]);
    }
  }

  lemma ClosedIgnores(d: Desk, e: Event)
    requires d.closed && d.pending == []
    ensures Next(d, e) == d
  {
  }

  /** Once closed, everything taken has been sent, and later messages and stale timers change nothing. */
  lemma {:induction false} ClosedIsFinal(events: seq<Event>, later: seq<Event>, group: string)
    requires Closes in events
    ensures After(events + later) == After(events)
    ensures Of(After(events).sent, group) == Taken(events, group)
  {
    EveryMessageIsKeptOnce(events, group);
    NothingFollowsClose(events, later);
  }

  lemma {:induction false} NothingFollowsClose(events: seq<Event>, later: seq<Event>)
    requires Closes in events
    ensures After(events + later) == After(events) && After(events).pending == []
  {
    ClosedStays(events);
    if later == [] {
      assert events + later == events;
    } else {
      var all := events + later;
      assert all[..|all| - 1] == events + later[..|later| - 1];
      NothingFollowsClose(events, later[..|later| - 1]);
      ClosedIgnores(After(events), later[|later| - 1]);
    }
  }

  /** An album is sent before its timer only to make room, and then it is the oldest. */
  lemma EarlySendMakesRoom(d: Desk, m: Message)
    requires Orderly(d) && Collect(d, m).sent != d.sent
    ensures |d.pending| == 32 && m.group !in Groups(d.pending)
    ensures Collect(d, m).sent == d.sent + [d.pending[0]]
    ensures Collect(d, m).pending == d.pending[1..] + [Album(m.group, [m])]
  {
    var k := Find(d.pending, m.group);
    assert k == |d.pending|;
    forall g <- Groups(d.pending) ensures g != m.group {
      var i: nat :| i < |d.pending| && Groups(d.pending)[i] == g;
      assert d.pending[i].group != m.group;
    }
  }

  /** A timer sends the whole album of its group, if one is pending, and no other. */
  lemma TimerSendsItsAlbum(d: Desk, group: string, k: nat)
    requires Orderly(d)
    ensures forall a <- Fire(d, group).pending :: a.group != group
    ensures (forall a <- d.pending :: a.group != group) ==> Fire(d, group) == d
    ensures k < |d.pending| && d.pending[k].group == group ==>
              Fire(d, group) == Desk(d.pending[..k] + d.pending[k + 1..], d.closed, d.sent + [d.pending[k]])
  {
    if k < |d.pending| {
      FoundAt(d.pending, k);
    }
    var j := Find(d.pending, group);
    if j < |d.pending| {
      assert d.pending[j] in d.pending;
      forall a <- Fire(d, group).pending ensures a.group != group {
        var left := d.pending[..j] + d.pending[j + 1..];
        var i: nat :| i < |left| && left[i] == a;
        assert left[i] == d.pending[if i < j then i else i + 1];
        assert d.pending[j].group != d.pending[if i < j then i else i + 1].group;
      }
    }
  }

  // ---- the collector ----

  ghost function Names(albums: seq<Album>): set<string> {
    if albums == [] then {} else Names(albums[..|albums| - 1]) + {albums[|albums| - 1].group}
  }

  lemma {:induction false} Named(albums: seq<Album>, group: string)
    ensures group in Names(albums) <==> exists i :: 0 <= i < |albums| && albums[i].group == group
  {
    if albums != [] {
      Named(albums[..|albums| - 1], group);
    }
  }

  /** The map and the list of its keys stand for this list of albums. */
  ghost predicate Mirrors(albums: seq<Album>, order: seq<string>, items: map<string, seq<Message>>) {
    && |albums| == |order|
    && (forall i :: 0 <= i < |order| ==> albums[i].group == order[i])
    && items.Keys == Names(albums)
    && (forall i :: 0 <= i < |order| ==> order[i] in items && items[order[i]] == albums[i].messages)
    && Distinct(albums)
  }

  /** The map has a key exactly when the list has an album of that group, and then they agree on it. */
  lemma Agree(albums: seq<Album>, order: seq<string>, items: map<string, seq<Message>>, group: string)
    requires Mirrors(albums, order, items)
    ensures var k := Find(albums, group);
            && (group in items <==> k < |albums|)
            && (group in items ==> order[k] == group && items[group] == albums[k].messages)
  {
    Named(albums, group);
    var k := Find(albums, group);
    if k < |albums| {
      assert order[k] in items;
    }
  }

  lemma {:induction false} NamesWithout(albums: seq<Album>, k: nat)
    requires Distinct(albums) && k < |albums|
    ensures Names(albums[..k] + albums[k + 1..]) == Names(albums) - {albums[k].group}
  {
    var n := |albums| - 1;
    var init := albums[..n];
    if k == n {
      assert albums[..k] + albums[k + 1..] == init;
      Named(init, albums[k].group);
    } else {
      var fewer := albums[..k] + albums[k + 1..];
      assert fewer[..n - 1] == init[..k] + init[k + 1..];
      NamesWithout(init, k);
    }
  }

  lemma {:induction false} SameNames(a: seq<Album>, b: seq<Album>)
    requires |a| == |b| && forall i :: 0 <= i < |a| ==> a[i].group == b[i].group
    ensures Names(a) == Names(b)
  {
    if a != [] {
      SameNames(a[..|a| - 1], b[..|b| - 1]);
    }
  }

  lemma MirrorsOneMore(albums: seq<Album>, order: seq<string>, items: map<string, seq<Message>>, group: string)
    requires Mirrors(albums, order, items) && group !in items
    ensures Mirrors(albums + [Album(group, [])], order + [group], items[group := []])
  {
    var more := albums + [Album(group, [])];
    Agree(albums, order, items, group);
    assert more[..|albums|] == albums;
  }

  lemma MirrorsGrown(albums: seq<Album>, order: seq<string>, items: map<string, seq<Message>>, m: Message)
    requires Mirrors(albums, order, items) && m.group in items
    ensures var k := Find(albums, m.group);
            k < |albums| && Mirrors(albums[k := Album(m.group, albums[k].messages + [m])], order,
                                    items[m.group := items[m.group] + [m]])
  {
    var k := Find(albums, m.group);
    Agree(albums, order, items, m.group);
    var grown := albums[k := Album(m.group, albums[k].messages + [m])];
    assert forall i :: 0 <= i < |order| ==> grown[i].group == albums[i].group;
    SameNames(albums, grown);
  }

  lemma MirrorsOneLess(albums: seq<Album>, order: seq<string>, items: map<string, seq<Message>>, k: nat)
    requires Mirrors(albums, order, items) && k < |order|
    ensures Mirrors(albums[..k] + albums[k + 1..], order[..k] + order[k + 1..], items - {order[k]})
  {
    var fewer, left := albums[..k] + albums[k + 1..], order[..k] + order[k + 1..];
    forall i | 0 <= i < |left|
      ensures fewer[i] == albums[if i < k then i else i + 1] && left[i] == order[if i < k then i else i + 1] {}
    NamesWithout(albums, k);
  }

  lemma CollectExisting(d: Desk, m: Message)
    requires !d.closed && Find(d.pending, m.group) < |d.pending|
    ensures var was, k := d.pending, Find(d.pending, m.group);
            Collect(d, m) == d.(pending := if |was[k].messages| < MAX_ALBUM_ITEMS
            then was[k := Album(m.group, was[k].messages + [m])]
            else was)
  {
  }

  /** A message that finds no album is one appended to a new, empty album. */
  lemma OpenThenAppend(d: Desk, m: Message)
    requires !d.closed && Find(d.pending, m.group) == |d.pending|
    ensures var room := if |d.pending| >= MAX_PENDING_ALBUMS then Send(d, 0) else d;
            var entered := room.pending + [Album(m.group, [])];
            Collect(d, m) == room.(pending :=
            entered[|entered| - 1 := Album(m.group, entered[|entered| - 1].messages + [m])])
  {
    var room := if |d.pending| >= MAX_PENDING_ALBUMS then Send(d, 0) else d;
    var entered := room.pending + [Album(m.group, [])];
    assert [] + [m] == [m];
    assert entered[|entered| - 1 := Album(m.group, [m])] == room.pending + [Album(m.group, [m])];
  }

  class AlbumCollector {
    var items: map<string, seq<Message>>
    var order: seq<string>
    var closed: bool
    /** The batches handed to a delivery of their own, in order. */
    var sent: seq<Album>
    ghost var pending: seq<Album>

    ghost predicate Valid()
      reads this
    {
      Mirrors(pending, order, items)
    }

    ghost function Value(): Desk
      reads this
    {
      Desk(pending, closed, sent)
    }

    constructor ()
      ensures Valid() && Value() == After([])
    {
      items, order, closed, sent := map[], [], false, [];
      pending := [];
    }

    method Add(m: Message)
      requires Valid() && |pending| <= MAX_PENDING_ALBUMS
      modifies this
      ensures Valid() && Value() == Collect(old(Value()), m)
    {
      if closed {
        return;
      }
      ghost var before := Value();
      Agree(pending, order, items, m.group);
      if m.group in items {
        CollectExisting(before, m);
      } else {
        MakeRoom(m.group);
        OpenThenAppend(before, m);
        assert pending[|pending| - 1].messages == [];
      }
      AppendIfRoom(m);
    }

    method AppendIfRoom(m: Message)
      requires Valid() && m.group in items
      modifies this`items, this`pending
      ensures Valid()
      ensures var was, k := old(pending), Find(old(pending), m.group);
              && k < |was|
              && pending == if |was[k].messages| < MAX_ALBUM_ITEMS then was[k := Album(m.group, was[k].messages + [m])]
                            else was
    {
      Agree(pending, order, items, m.group);
      if |items[m.group]| < MAX_ALBUM_ITEMS {
        Append(m);
      }
    }

    method Append(m: Message)
      requires Valid() && m.group in items
      modifies this`items, this`pending
      ensures Valid()
      ensures var k := Find(old(pending), m.group);
              k < |old(pending)| && pending == old(pending)[k := Album(m.group, old(pending)[k].messages + [m])]
    {
      MirrorsGrown(pending, order, items, m);
      items := items[m.group := items[m.group] + [m]];
      ghost var k := Find(pending, m.group);
      pending := pending[k := Album(m.group, pending[k].messages + [m])];
    }

    /** Enters a new, still empty album, and sends the oldest if there are now too many. */
    method MakeRoom(group: string)
      requires Valid() && group !in items && |pending| <= MAX_PENDING_ALBUMS
      modifies this`items, this`order, this`sent, this`pending
      ensures Valid() && group in items && Find(pending, group) == |pending| - 1
      ensures var d := old(Value());
              var room := if |d.pending| >= MAX_PENDING_ALBUMS then Send(d, 0) else d;
              Value() == room.(pending := room.pending + [Album(group, [])])
    {
      MirrorsOneMore(pending, order, items, group);
      items := items[group := []];
      order := order + [group];
      pending := pending + [Album(group, [])];
      if |order| > MAX_PENDING_ALBUMS {
        FlushFirst(order[0]);
      }
      NewestIs(group);
    }

    lemma NewestIs(group: string)
      requires Valid() && pending != [] && pending[|pending| - 1].group == group
      ensures group in items && Find(pending, group) == |pending| - 1
    {
      FoundAt(pending, |pending| - 1);
      Agree(pending, order, items, group);
    }

    /** FlushLocked, called for the oldest album. */
    method FlushFirst(group: string)
      requires Valid() && pending != [] && group == pending[0].group
      modifies this`items, this`order, this`sent, this`pending
      ensures Valid() && Value() == Desk(old(pending[1..]), closed, old(sent) + [old(pending[0])])
    {
      FireFirst(Value());
      FlushLocked(group);
    }

    /** What a settle timer calls, in time or late. */
    method Flush(group: string)
      requires Valid()
      modifies this`items, this`order, this`sent, this`pending
      ensures Valid() && Value() == Fire(old(Value()), group)
    {
      FlushLocked(group);
    }

    method FlushLocked(group: string)
      requires Valid()
      modifies this`items, this`order, this`sent, this`pending
      ensures Valid() && Value() == Fire(old(Value()), group)
    {
      Agree(pending, order, items, group);
      if group !in items {
        return;
      }
      var messages := items[group];
      ghost var k := Find(pending, group);
      var i := 0;
      while order[i] != group
        invariant i <= k < |order|
        decreases k - i
      {
        i := i + 1;
      }
      assert i == k;
      MirrorsOneLess(pending, order, items, k);
      items := items - {group};
      order := order[..i] + order[i + 1..];
      sent := sent + [Album(group, messages)];
      pending := pending[..k] + pending[k + 1..];
    }

    method CloseAll()
      requires Valid()
      modifies this
      ensures Valid() && Value() == Close(old(Value()))
    {
      closed := true;
      var ids := order;
      ghost var albums, before := pending, sent;
      for i := 0 to |ids|
        invariant Valid() && closed && pending == albums[i..] && sent == before + albums[..i]
      {
        OneFurther(albums, before, i);
        FlushFirst(ids[i]);
      }
    }
  }

  lemma OneFurther(albums: seq<Album>, before: seq<Album>, i: nat)
    requires i < |albums|
    ensures albums[i..] != [] && albums[i..][0] == albums[i] && albums[i..][1..] == albums[i + 1..]
    ensures before + albums[..i] + [albums[i]] == before + albums[..i + 1]
  {
    assert albums[..i + 1] == albums[..i] + [albums[i]];
  }
}
