/**
 A second run of the skill linker: it ends in the same homes, unless a link leads
 through another home to a wrapper that the first run took away as stale.
 */
module SkillRerun {
  import opened Prelude
  import opened SkillLinks
  import opened SkillResults

  // ---- links that lean on an earlier home ----

  /** Following links from an entry leads to a home before h. */
  predicate Leans(homes: Homes, h: nat, name: string, start: nat, hops: nat)
    requires start < 3
    decreases hops
  {
    match At(homes, start, name)
    case Some(Link(Twin(k))) => k < 3 && (k < h || (hops > 0 && Leans(homes, h, name, k, hops - 1)))
    case _ => false
  }

  predicate LeansAt(homes: Homes, h: nat, name: string)
    requires h < 3
  {
    Leans(homes, h, name, h, 2)
  }

  lemma {:induction false} LeansColumn(a: Homes, b: Homes, h: nat, name: string, start: nat, hops: nat)
    requires start < 3 && SameColumn(a, b, name)
    ensures Leans(a, h, name, start, hops) == Leans(b, h, name, start, hops)
    decreases hops
  {
    match At(a, start, name)
    case Some(Link(Twin(k))) =>
      if k < 3 && hops > 0 {
        LeansColumn(a, b, h, name, k, hops - 1);
      }
    case _ =>
  }

  /** When all earlier homes lead to one place, so does an entry that leans on them. */
  lemma {:induction false} LeaningFollows(files: Files, homes: Homes, h: nat, name: string, place: Place, start: nat,
                                          hops: nat)
    requires h <= 3 && start < 3 && Leans(homes, h, name, start, hops)
    requires forall k: nat :: k < h ==> Resolve(files, homes, k, name, HOPS) == Some(place)
    ensures Resolve(files, homes, start, name, HOPS + hops + 1) == Some(place)
    decreases hops
  {
    match At(homes, start, name)
    case Some(Link(Twin(k))) =>
      if k < h {
        MoreHops(files, homes, k, name, HOPS, HOPS + hops);
      } else {
        LeaningFollows(files, homes, h, name, place, k, hops - 1);
      }
    case _ =>
  }

  /** An entry that does not lean on the homes before h does not see them change. */
  lemma {:induction false} UprightIsUnseeing(files: Files, a: Homes, b: Homes, h: nat, name: string, start: nat,
                                             hops: nat)
    requires h <= start < 3 && !Leans(a, h, name, start, hops)
    requires forall k: nat :: h <= k < 3 ==> At(a, k, name) == At(b, k, name)
    ensures Resolve(files, a, start, name, hops + 1) == Resolve(files, b, start, name, hops + 1)
    decreases hops
  {
    match At(a, start, name)
    case Some(Link(Twin(k))) =>
      if k < 3 {
        if hops > 0 {
          UprightIsUnseeing(files, a, b, h, name, k, hops - 1);
        } else {
          assert Resolve(files, a, k, name, 0) == Resolve(files, b, k, name, 0);
        }
      }
    case _ =>
  }

  // ---- one skill ----

  ghost predicate SameLean(a: Homes, b: Homes, name: string) {
    && (forall h: nat :: h < 3 ==> LeansAt(a, h, name) == LeansAt(b, h, name))
    && (forall h: nat :: h < 3 && LeansAt(a, h, name) ==> At(a, h, name) == At(b, h, name))
  }

  /** Replacing an upright entry by a link that leads out changes no leaning. */
  lemma UprightReplaced(a: Homes, b: Homes, c: nat, name: string, path: string, h: nat)
    requires c < 3 && h < 3 && !LeansAt(a, c, name)
    requires At(b, c, name) == Some(Link(Outside(path))) && SameElsewhere(a, b, c, name)
    ensures LeansAt(a, h, name) == LeansAt(b, h, name)
    ensures LeansAt(a, h, name) ==> At(a, h, name) == At(b, h, name)
  {
  }

  ghost function Value(files: Files, p: Provision): Place
    requires Plain(files, p)
  {
    Far(files(p.path).value)
  }

  lemma LeaningInPlace(files: Files, homes: Homes, h: nat, p: Provision)
    requires h < 3 && Plain(files, p) && p.Package? && LeansAt(homes, h, p.name)
    requires forall k: nat :: k < h ==> InPlace(files, homes, k, p)
    ensures InPlace(files, homes, h, p)
  {
    forall k: nat | k < h ensures Resolve(files, homes, k, p.name, HOPS) == Some(Value(files, p)) {
      assert InPlace(files, homes, k, p);
    }
    LeaningFollows(files, homes, h, p.name, Value(files, p), h, 2);
    HopsSuffice(files, homes, h, p.name, HOPS + 3);
    HopsSuffice(files, homes, h, p.name, HOPS);
  }

  /** Putting a package in one more home leaves leaning entries alone and sets none that lean. */
  lemma PutAtKeepsLean(files: Files, homes: Homes, h: nat, p: Provision)
    requires h < 3 && Plain(files, p) && p.Package? && AllPresent(homes)
    requires forall k: nat :: k < h ==> InPlace(files, homes, k, p)
    ensures SameLean(PutAt(files, homes, h, p).homes, homes, p.name)
  {
    if !InPlace(files, homes, h, p) {
      if LeansAt(homes, h, p.name) {
        LeaningInPlace(files, homes, h, p);
      }
      var after := PutAt(files, homes, h, p).homes;
      forall k: nat | k < 3
        ensures LeansAt(after, k, p.name) == LeansAt(homes, k, p.name)
        ensures LeansAt(homes, k, p.name) ==> At(after, k, p.name) == At(homes, k, p.name)
      {
        UprightReplaced(homes, after, h, p.name, p.path, k);
      }
    }
  }

  lemma {:induction false} PutKeepsLean(files: Files, homes: Homes, p: Provision, n: nat)
    requires n <= 3 && Plain(files, p) && p.Package? && AllPresent(homes)
    ensures SameLean(Put(files, homes, p, n).homes, homes, p.name)
  {
    if n > 0 {
      PutKeepsLean(files, homes, p, n - 1);
      PutWorks(files, homes, p, n - 1);
      var before := Put(files, homes, p, n - 1).homes;
      PutAtKeepsLean(files, before, n - 1, p);
      SameLeanChain(PutAt(files, before, n - 1, p).homes, before, homes, p.name);
    }
  }

  lemma SameLeanChain(a: Homes, b: Homes, c: Homes, name: string)
    requires SameLean(a, b, name) && SameLean(b, c, name)
    ensures SameLean(a, c, name)
  {
  }

  /** Two provisions of a name that put the same thing in place. */
  predicate Agree(files: Files, p: Provision, q: Provision) {
    p.name == q.name && p.Package? == q.Package? && files(p.path) == files(q.path)
  }

  lemma AgreeInPlace(files: Files, homes: Homes, p: Provision, q: Provision, h: nat)
    requires h < 3 && Plain(files, p) && Plain(files, q) && Agree(files, p, q)
    ensures InPlace(files, homes, h, p) == InPlace(files, homes, h, q)
  {
  }

  /** What a home has of a name after a package has displaced another skill in all homes. */
  ghost function Displaced(homes: Homes, h: nat, p: Provision): Option<Entry>
    requires h < 3
  {
    if p.Flat? then Some(Wrapper(p.path))
    else if LeansAt(homes, h, p.name) then At(homes, h, p.name)
    else Some(Link(Outside(p.path)))
  }

  lemma {:induction false} DisplaceFlat(files: Files, homes: Homes, p: Provision, q: Provision, n: nat, h: nat)
    requires h < 3 && n <= 3 && AllPresent(homes) && Plain(files, p) && Plain(files, q) && p.name == q.name
    requires EverywhereInPlace(files, homes, q) && !Agree(files, p, q) && p.Flat?
    ensures At(Put(files, homes, p, n).homes, h, p.name) == if h < n then Displaced(homes, h, p)
                                                            else At(homes, h, p.name)
  {
    if n > 0 {
      PutWorks(files, homes, p, n - 1);
      DisplaceFlat(files, homes, p, q, n - 1, h);
      var before := Put(files, homes, p, n - 1).homes;
      assert before[n - 1] == homes[n - 1];
      assert !InPlace(files, before, n - 1, p) by {
        assert InPlace(files, homes, n - 1, q);
      }
    }
  }

  /** An upright entry that had another skill in place does not have the package in place yet. */
  lemma UprightIsDisplaced(files: Files, homes: Homes, p: Provision, q: Provision, h: nat)
    requires h < 3 && AllPresent(homes) && Plain(files, p) && Plain(files, q) && p.name == q.name
    requires InPlace(files, homes, h, q) && !Agree(files, p, q) && p.Package? && !LeansAt(homes, h, p.name)
    ensures !InPlace(files, Put(files, homes, p, h).homes, h, p)
  {
    var before := Put(files, homes, p, h).homes;
    PutWorks(files, homes, p, h);
    UprightIsUnseeing(files, homes, before, h, p.name, h, 2);
    if q.Flat? {
      assert Resolve(files, homes, h, p.name, HOPS) == Some(Near(h));
    }
  }

  lemma {:induction false} DisplacePackage(files: Files, homes: Homes, p: Provision, q: Provision, n: nat, h: nat)
    requires h < 3 && n <= 3 && AllPresent(homes) && Plain(files, p) && Plain(files, q) && p.name == q.name
    requires EverywhereInPlace(files, homes, q) && !Agree(files, p, q) && p.Package?
    ensures At(Put(files, homes, p, n).homes, h, p.name) == if h < n then Displaced(homes, h, p)
                                                            else At(homes, h, p.name)
  {
    if n > 0 {
      var c := n - 1;
      PutWorks(files, homes, p, c);
      DisplacePackage(files, homes, p, q, c, h);
      DisplaceOne(files, homes, p, q, c);
    }
  }

  lemma DisplaceOne(files: Files, homes: Homes, p: Provision, q: Provision, c: nat)
    requires c < 3 && AllPresent(homes) && Plain(files, p) && Plain(files, q) && p.name == q.name
    requires InPlace(files, homes, c, q) && !Agree(files, p, q) && p.Package?
    ensures At(PutAt(files, Put(files, homes, p, c).homes, c, p).homes, c, p.name) == Displaced(homes, c, p)
  {
    var before := Put(files, homes, p, c).homes;
    PutWorks(files, homes, p, c);
    PutKeepsLean(files, homes, p, c);
    assert before[c] == homes[c];
    assert LeansAt(before, c, p.name) == LeansAt(homes, c, p.name);
    if LeansAt(homes, c, p.name) {
      LeaningInPlace(files, before, c, p);
    } else {
      UprightIsDisplaced(files, homes, p, q, c);
    }
  }

  /** Displacing one skill by another gives the same homes whatever they had in place before. */
  lemma DisplacedAlike(files: Files, a: Homes, b: Homes, p: Provision, q: Provision)
    requires AllPresent(a) && AllPresent(b) && Plain(files, p) && Plain(files, q) && p.name == q.name &&
             !Agree(files, p, q)
    requires EverywhereInPlace(files, a, q) && EverywhereInPlace(files, b, q)
    requires p.Flat? || SameLean(a, b, p.name)
    ensures SameColumn(Put(files, a, p, 3).homes, Put(files, b, p, 3).homes, p.name)
  {
    forall h: nat | h < 3 ensures At(Put(files, a, p, 3).homes, h, p.name) == At(Put(files, b, p, 3).homes, h, p.name) {
      if p.Flat? {
        DisplaceFlat(files, a, p, q, 3, h);
        DisplaceFlat(files, b, p, q, 3, h);
      } else {
        DisplacePackage(files, a, p, q, 3, h);
        DisplacePackage(files, b, p, q, 3, h);
      }
    }
  }

  lemma PutAtColumn(files: Files, a: Homes, b: Homes, h: nat, p: Provision)
    requires h < 3 && AllPresent(a) && AllPresent(b) && Plain(files, p) && SameColumn(a, b, p.name)
    ensures SameColumn(PutAt(files, a, h, p).homes, PutAt(files, b, h, p).homes, p.name)
  {
    InPlaceColumn(files, a, b, h, p);
    var x, y := PutAt(files, a, h, p).homes, PutAt(files, b, h, p).homes;
    assert At(a, h, p.name) == At(b, h, p.name);
    forall k: nat | k < 3 ensures At(x, k, p.name) == At(y, k, p.name) {
      assert At(a, k, p.name) == At(b, k, p.name);
    }
  }

  lemma {:induction false} PutColumn(files: Files, a: Homes, b: Homes, p: Provision, n: nat, name: string)
    requires n <= 3 && AllPresent(a) && AllPresent(b) && Plain(files, p) && SameColumn(a, b, name)
    ensures SameColumn(Put(files, a, p, n).homes, Put(files, b, p, n).homes, name)
  {
    if p.name != name {
      PutKeepsOthers(files, a, p, n, name);
      PutKeepsOthers(files, b, p, n, name);
    } else if n > 0 {
      PutColumn(files, a, b, p, n - 1, name);
      PutWorks(files, a, p, n - 1);
      PutWorks(files, b, p, n - 1);
      PutAtColumn(files, Put(files, a, p, n - 1).homes, Put(files, b, p, n - 1).homes, n - 1, p);
    }
  }

  // ---- all skills ----

  /** All provisions of this name put the same thing in place as q. */
  ghost predicate AllAgree(files: Files, ps: seq<Provision>, q: Provision) {
    forall p <- ps :: p.name == q.name ==> Agree(files, p, q)
  }

  predicate HasFlat(ps: seq<Provision>, name: string) {
    exists p <- ps :: p.name == name && p.Flat?
  }

  /** Homes that have it all in place already stay as they are. */
  lemma {:induction false} Steady(files: Files, homes: Homes, ps: seq<Provision>, q: Provision)
    requires AllPresent(homes) && AllPlain(files, ps) && Plain(files, q) && AllAgree(files, ps, q) &&
             EverywhereInPlace(files, homes, q)
    ensures SameColumn(PutAll(files, homes, ps).homes, homes, q.name)
  {
    if ps != [] {
      var earlier, p := ps[..|ps| - 1], ps[|ps| - 1];
      assert p in ps && forall r <- earlier :: r in ps;
      Steady(files, homes, earlier, q);
      PutAllWorks(files, homes, earlier, q.name);
      var before := PutAll(files, homes, earlier).homes;
      if p.name == q.name {
        PutIsIdle(files, homes, p, q);
        PutColumn(files, before, homes, p, 3, q.name);
      } else {
        PutKeepsOthers(files, before, p, 3, q.name);
      }
    }
  }

  lemma PutIsIdle(files: Files, homes: Homes, p: Provision, q: Provision)
    requires Plain(files, p) && Plain(files, q) && Agree(files, p, q) && EverywhereInPlace(files, homes, q)
    ensures Put(files, homes, p, 3) == Outcome(homes, true)
  {
    AgreeInPlace(files, homes, p, q, 0);
    AgreeInPlace(files, homes, p, q, 1);
    AgreeInPlace(files, homes, p, q, 2);
    assert Put(files, homes, p, 1).homes == homes;
    assert Put(files, homes, p, 2).homes == homes;
  }

  /** Packages alone keep what leans. */
  lemma {:induction false} PutAllKeepsLean(files: Files, homes: Homes, ps: seq<Provision>, name: string)
    requires AllPresent(homes) && AllPlain(files, ps) && !HasFlat(ps, name)
    ensures SameLean(PutAll(files, homes, ps).homes, homes, name)
  {
    if ps != [] {
      var earlier, p := ps[..|ps| - 1], ps[|ps| - 1];
      assert p in ps && forall r <- earlier :: r in ps;
      PutAllKeepsLean(files, homes, earlier, name);
      PutAllWorks(files, homes, earlier, name);
      var before := PutAll(files, homes, earlier).homes;
      if p.name == name {
        PutKeepsLean(files, before, p, 3);
      } else {
        PutKeepsOthers(files, before, p, 3, name);
        forall h: nat | h < 3 ensures LeansAt(Put(files, before, p, 3).homes, h, name) == LeansAt(before, h, name) {
          LeansColumn(Put(files, before, p, 3).homes, before, h, name, h, 2);
        }
      }
    }
  }

  /** All provisions of the name agree, or both starts end alike. */
  ghost predicate Meet(files: Files, a: Homes, b: Homes, ps: seq<Provision>, name: string) {
    match Latest(ps, name)
    case None => true
    case Some(q) => AllAgree(files, ps, q) || SameColumn(PutAll(files, a, ps).homes, PutAll(files, b, ps).homes, name)
  }

  /** Two starts with the same leaning entries end alike, unless no source disagrees with another about the name. */
  lemma {:induction false} RunsMeet(files: Files, a: Homes, b: Homes, ps: seq<Provision>, name: string)
    requires AllPresent(a) && AllPresent(b) && AllPlain(files, ps)
    requires SameLean(a, b, name) || HasFlat(ps, name)
    ensures Meet(files, a, b, ps, name)
  {
    if ps != [] {
      var earlier, p := ps[..|ps| - 1], ps[|ps| - 1];
      assert p in ps && forall r <- earlier :: r in ps;
      if SameLean(a, b, name) || HasFlat(earlier, name) {
        RunsMeet(files, a, b, earlier, name);
      }
      if p.name != name {
        assert HasFlat(ps, name) ==> HasFlat(earlier, name);
        MeetPastOther(files, a, b, ps, name);
      } else {
        assert HasFlat(ps, name) ==> HasFlat(earlier, name) || p.Flat?;
        MeetAtOwn(files, a, b, ps);
      }
    }
  }

  lemma MeetPastOther(files: Files, a: Homes, b: Homes, ps: seq<Provision>, name: string)
    requires AllPresent(a) && AllPresent(b) && AllPlain(files, ps) && ps != []
    requires ps[|ps| - 1].name != name && Meet(files, a, b, ps[..|ps| - 1], name)
    ensures Meet(files, a, b, ps, name)
  {
    var earlier, p := ps[..|ps| - 1], ps[|ps| - 1];
    assert p in ps && ps == earlier + [p] && forall r <- earlier :: r in ps;
    PutAllWorks(files, a, earlier, name);
    PutAllWorks(files, b, earlier, name);
    PutColumnIf(files, PutAll(files, a, earlier).homes, PutAll(files, b, earlier).homes, p, name);
  }

  lemma MeetAtOwn(files: Files, a: Homes, b: Homes, ps: seq<Provision>)
    requires AllPresent(a) && AllPresent(b) && AllPlain(files, ps) && ps != []
    requires var name := ps[|ps| - 1].name;
             && (SameLean(a, b, name) || HasFlat(ps, name))
             && (Meet(files, a, b, ps[..|ps| - 1], name) || (ps[|ps| - 1].Flat? && !HasFlat(ps[..|ps| - 1], name)))
    ensures Meet(files, a, b, ps, ps[|ps| - 1].name)
  {
    var earlier, p := ps[..|ps| - 1], ps[|ps| - 1];
    assert p in ps && ps == earlier + [p] && forall r <- earlier :: r in ps;
    NoneIsLatest(earlier, p.name);
    if Latest(earlier, p.name).Some? {
      var q := Latest(earlier, p.name).value;
      PutAllWorks(files, a, earlier, p.name);
      PutAllWorks(files, b, earlier, p.name);
      var x, y := PutAll(files, a, earlier).homes, PutAll(files, b, earlier).homes;
      PutColumnIf(files, x, y, p, p.name);
      if AllAgree(files, earlier, q) || !HasFlat(earlier, p.name) {
        MeetAtLast(files, a, b, earlier, p, q);
      }
      if Agree(files, p, q) && AllAgree(files, earlier, q) {
        assert AllAgree(files, ps, p);
      }
    }
  }

  lemma {:induction false} NoneIsLatest(ps: seq<Provision>, name: string)
    ensures Latest(ps, name).None? ==> forall p <- ps :: p.name != name
  {
    if ps != [] {
      NoneIsLatest(ps[..|ps| - 1], name);
    }
  }

  lemma PutColumnIf(files: Files, a: Homes, b: Homes, p: Provision, name: string)
    requires AllPresent(a) && AllPresent(b) && Plain(files, p)
    ensures SameColumn(a, b, name) ==> SameColumn(Put(files, a, p, 3).homes, Put(files, b, p, 3).homes, name)
  {
    if SameColumn(a, b, name) {
      PutColumn(files, a, b, p, 3, name);
    }
  }

  /** The last provision of a name, after others that agreed among themselves, or that it as a flat file displaces. */
  lemma MeetAtLast(files: Files, a: Homes, b: Homes, earlier: seq<Provision>, p: Provision, q: Provision)
    requires AllPresent(a) && AllPresent(b) && AllPlain(files, earlier) && Plain(files, p)
    requires Latest(earlier, p.name) == Some(q)
    requires AllAgree(files, earlier, q) || !HasFlat(earlier, p.name)
    requires SameLean(a, b, p.name) || HasFlat(earlier + [p], p.name)
    ensures var x, y := PutAll(files, a, earlier).homes, PutAll(files, b, earlier).homes;
            Agree(files, p, q) || SameColumn(Put(files, x, p, 3).homes, Put(files, y, p, 3).homes, p.name)
  {
    PutAllWorks(files, a, earlier, p.name);
    PutAllWorks(files, b, earlier, p.name);
    var x, y := PutAll(files, a, earlier).homes, PutAll(files, b, earlier).homes;
    if !Agree(files, p, q) {
      if p.Package? {
        if q.Flat? {
          forall h: nat | h < 3 ensures !LeansAt(x, h, p.name) && !LeansAt(y, h, p.name) {
            assert InPlace(files, x, h, q) && InPlace(files, y, h, q);
          }
        } else {
          assert !HasFlat(earlier, p.name);
          PutAllKeepsLean(files, a, earlier, p.name);
          PutAllKeepsLean(files, b, earlier, p.name);
          SameLeanSymmetric(y, b, p.name);
          SameLeanChain(x, a, b, p.name);
          SameLeanChain(x, b, y, p.name);
        }
      }
      DisplacedAlike(files, x, y, p, q);
    }
  }

  lemma SameLeanSymmetric(a: Homes, b: Homes, name: string)
    requires SameLean(a, b, name)
    ensures SameLean(b, a, name)
  {
  }

  /** Putting everything in place a second time changes nothing of a name. */
  lemma PutAllTwice(files: Files, homes: Homes, ps: seq<Provision>, name: string)
    requires AllPresent(homes) && AllPlain(files, ps) && Latest(ps, name).Some?
    ensures var once := PutAll(files, homes, ps).homes;
            SameColumn(PutAll(files, once, ps).homes, once, name)
  {
    var once := PutAll(files, homes, ps).homes;
    PutAllWorks(files, homes, ps, name);
    var q := Latest(ps, name).value;
    if AllAgree(files, ps, q) {
      Steady(files, once, ps, q);
    } else {
      if !HasFlat(ps, name) {
        PutAllKeepsLean(files, homes, ps, name);
        SameLeanSymmetric(once, homes, name);
      }
      RunsMeet(files, homes, once, ps, name);
    }
  }

  // ---- the second run ----

  /** A link of a name nobody provides leads to a wrapper of another home that is stale. */
  ghost predicate LeadsToStale(files: Files, sources: seq<Source>, homes: Homes, h: nat, name: string)
    requires h < 3
  {
    && Provider(sources, name).None?
    && At(homes, h, name).Some? && At(homes, h, name).value.Link?
    && match Resolve(files, homes, h, name, HOPS)
       case Some(Near(k)) => k < 3 && At(homes, k, name).Some? && Stale(files, sources, name, At(homes, k, name).value)
       case _ => false
  }

  lemma {:induction false} PutAllColumn(files: Files, a: Homes, b: Homes, ps: seq<Provision>, name: string)
    requires AllPresent(a) && AllPresent(b) && AllPlain(files, ps) && SameColumn(a, b, name)
    ensures SameColumn(PutAll(files, a, ps).homes, PutAll(files, b, ps).homes, name)
  {
    if ps != [] {
      var earlier, p := ps[..|ps| - 1], ps[|ps| - 1];
      assert p in ps && forall r <- earlier :: r in ps;
      PutAllColumn(files, a, b, earlier, name);
      PutAllWorks(files, a, earlier, name);
      PutAllWorks(files, b, earlier, name);
      PutColumn(files, PutAll(files, a, earlier).homes, PutAll(files, b, earlier).homes, p, 3, name);
    }
  }

  /** Homes that have a skill in place lose nothing of that name by cleaning or by sweeping. */
  lemma InPlaceSurvives(files: Files, sources: seq<Source>, homes: Homes, p: Provision)
    requires AllPresent(homes) && Plain(files, p) && EverywhereInPlace(files, homes, p)
    ensures SameColumn(Clean(files, homes, 3), homes, p.name)
    ensures SameColumn(Sweep(files, sources, homes, 3).homes, homes, p.name)
  {
    forall h: nat | h < 3
      ensures At(Clean(files, homes, 3), h, p.name) == At(homes, h, p.name)
      ensures At(Sweep(files, sources, homes, 3).homes, h, p.name) == At(homes, h, p.name)
    {
      assert InPlace(files, homes, h, p);
      CleanTakesDangling(files, homes, 3, h, p.name);
      SweepTakesStale(files, sources, homes, 3, h, p.name);
    }
  }

  /** A second run changes nothing of a provided name. */
  lemma ProvidedStays(files: Files, sources: seq<Source>, homes: Homes, name: string)
    requires Lawful(files, sources) && Tame(sources) && Provider(sources, name).Some?
    ensures var one := LinkAll(files, sources, homes).homes;
            SameColumn(LinkAll(files, sources, one).homes, one, name)
  {
    var ps := Provisions(sources);
    PlainProvisions(files, sources);
    LatestIsProvider(sources, name);
    EveryHomeHasTheLatest(files, sources, homes, 0, name);
    var cleaned := Clean(files, homes, 3);
    AllCleaned(files, homes);
    PutAllWorks(files, cleaned, ps, name);
    var put := PutAll(files, cleaned, ps).homes;
    var p := Latest(ps, name).value;
    PutAllTwice(files, cleaned, ps, name);
    InPlaceSurvives(files, sources, put, p);
    var one := LinkAll(files, sources, homes).homes;
    assert SameColumn(one, put, name);
    FollowsFromColumn(files, sources, one, put, p);
  }

  lemma AllCleaned(files: Files, homes: Homes)
    ensures AllPresent(Clean(files, homes, 3))
  {
    CleanTakesDangling(files, homes, 3, 0, "");
    CleanTakesDangling(files, homes, 3, 1, "");
    CleanTakesDangling(files, homes, 3, 2, "");
  }

  lemma FollowsFromColumn(files: Files, sources: seq<Source>, one: Homes, put: Homes, p: Provision)
    requires AllPresent(one) && AllPresent(put) && SameColumn(one, put, p.name) && Plain(files, p)
    requires AllPlain(files, Provisions(sources)) && Latest(Provisions(sources), p.name) == Some(p)
    requires EverywhereInPlace(files, put, p)
    requires SameColumn(PutAll(files, put, Provisions(sources)).homes, put, p.name)
    ensures SameColumn(LinkAll(files, sources, one).homes, one, p.name)
  {
    var ps := Provisions(sources);
    InPlaceColumn(files, one, put, 0, p);
    InPlaceColumn(files, one, put, 1, p);
    InPlaceColumn(files, one, put, 2, p);
    InPlaceSurvives(files, sources, one, p);
    var cleaned := Clean(files, one, 3);
    AllCleaned(files, one);
    PutAllColumn(files, cleaned, put, ps, p.name);
    PutAllWorks(files, cleaned, ps, p.name);
    InPlaceSurvives(files, sources, PutAll(files, cleaned, ps).homes, p);
  }

  /** What a link resolves to once the stale wrappers are gone. */
  lemma {:induction false} SweptResolve(files: Files, sources: seq<Source>, a: Homes, b: Homes, h: nat, name: string,
                                        hops: nat)
    requires h < 3
    requires forall k: nat :: k < 3 ==> At(b, k, name) == Kept(files, sources, name, At(a, k, name))
    ensures match Resolve(files, a, h, name, hops)
            case Some(Near(k)) =>
              && k < 3 && At(a, k, name).Some?
              && Resolve(files, b, h, name, hops)
                 == if Stale(files, sources, name, At(a, k, name).value) then None else Some(Near(k))
            case r => Resolve(files, b, h, name, hops) == r
    decreases hops
  {
    match At(a, h, name)
    case Some(Link(Twin(k))) =>
      if hops > 0 && k < 3 {
        SweptResolve(files, sources, a, b, k, name, hops - 1);
      }
    case _ =>
  }

  /** A second run takes out of an entry nobody provides exactly what led to a stale wrapper. */
  lemma UnprovidedStays(files: Files, sources: seq<Source>, homes: Homes, h: nat, name: string)
    requires Lawful(files, sources) && Tame(sources) && Provider(sources, name).None? && h < 3
    ensures var one := LinkAll(files, sources, homes).homes;
            At(LinkAll(files, sources, one).homes, h, name) == At(one, h, name) <==>
            !LeadsToStale(files, sources, homes, h, name)
  {
    var one := LinkAll(files, sources, homes).homes;
    var cleaned := Clean(files, homes, 3);
    forall k: nat | k < 3
      ensures At(cleaned, k, name) == if Dangling(files, homes, k, name) then None else At(homes, k, name)
      ensures At(one, k, name)
           == Kept(files, sources, name, At(cleaned, k, name))
    {
      CleanTakesDangling(files, homes, 3, k, name);
      EveryHomeHasTheLatest(files, sources, homes, k, name);
    }
    EveryHomeHasTheLatest(files, sources, one, h, name);
    CleanTakesDangling(files, homes, 3, h, name);
    SweptResolve(files, sources, cleaned, one, h, name, HOPS);
  }

  lemma SameHomes(a: Homes, b: Homes)
    requires AllPresent(a) && AllPresent(b) && forall name :: SameColumn(a, b, name)
    ensures a == b
  {
    forall h: nat | h < 3 ensures a[h] == b[h] {
      forall name ensures At(a, h, name) == At(b, h, name) {
        assert SameColumn(a, b, name);
      }
      assert forall name :: name in a[h].entries <==> At(a, h, name).Some?;
      assert forall name :: name in b[h].entries <==> At(b, h, name).Some?;
      assert forall name :: name in a[h].entries ==> a[h].entries[name] == At(a, h, name).value;
      assert forall name :: name in b[h].entries ==> b[h].entries[name] == At(b, h, name).value;
      assert a[h].entries == b[h].entries;
    }
  }

  /** A second run ends in the same homes exactly when no link led to a wrapper the first one took away. */
  lemma SecondRun(files: Files, sources: seq<Source>, homes: Homes)
    requires Lawful(files, sources) && Tame(sources)
    ensures var one := LinkAll(files, sources, homes).homes;
            LinkAll(files, sources, one) == Outcome(one, true)
            <==> forall h: nat, name :: h < 3 ==> !LeadsToStale(files, sources, homes, h, name)
  {
    var one := LinkAll(files, sources, homes).homes;
    var two := LinkAll(files, sources, one).homes;
    EveryHomeHasTheLatest(files, sources, homes, 0, "");
    EveryHomeHasTheLatest(files, sources, one, 0, "");
    if forall h: nat, name :: h < 3 ==> !LeadsToStale(files, sources, homes, h, name) {
      forall name ensures SameColumn(two, one, name) {
        if Provider(sources, name).Some? {
          ProvidedStays(files, sources, homes, name);
        } else {
          forall h: nat | h < 3 ensures At(two, h, name) == At(one, h, name) {
            UnprovidedStays(files, sources, homes, h, name);
          }
        }
      }
      SameHomes(two, one);
    } else {
      var h: nat, name :| h < 3 && LeadsToStale(files, sources, homes, h, name);
      UnprovidedStays(files, sources, homes, h, name);
    }
  }

  /** Such a link is possible: two homes, one with a wrapper whose skill is gone, the other with a link to it. */
  lemma SecondRunCanDiffer(files: Files, name: string, gone: string)
    requires files(gone).None? && !IsDots(name)
    ensures var homes := [Home(map[name := Link(Twin(1))]), Home(map[name := Wrapper(gone)]), Home(map[])];
            var one := LinkAll(files, [], homes);
            && one.ok && At(one.homes, 0, name) == Some(Link(Twin(1)))
            && At(LinkAll(files, [], one.homes).homes, 0, name) == None
  {
    var homes := [Home(map[name := Link(Twin(1))]), Home(map[name := Wrapper(gone)]), Home(map[])];
    var one := LinkAll(files, [], homes).homes;
    assert Lawful(files, []) && Tame([]) && Provider([], name).None? && !Managed([], name);
    assert At(homes, 0, name) == Some(Link(Twin(1))) && At(homes, 1, name) == Some(Wrapper(gone));
    assert Resolve(files, homes, 1, name, 2) == Some(Near(1));
    EveryHomeHasTheLatest(files, [], homes, 0, name);
    EveryHomeHasTheLatest(files, [], homes, 1, name);
    EveryHomeHasTheLatest(files, [], one, 0, name);
    assert Resolve(files, one, 1, name, 2).None?;
  }
}
