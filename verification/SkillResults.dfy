/**
 What a run of the skill linker achieves: every managed name in every home leads to
 the last source that provides it, and nothing else changes but what dangled.
 */
module SkillResults {
  import opened Prelude
  import opened SkillLinks

  // ---- following links ----

  lemma {:induction false} MoreHops(files: Files, homes: Homes, h: nat, name: string, few: nat, many: nat)
    requires h < 3 && few <= many && Resolve(files, homes, h, name, few).Some?
    ensures Resolve(files, homes, h, name, many) == Resolve(files, homes, h, name, few)
    decreases few
  {
    match At(homes, h, name)
    case Some(Link(Twin(k))) => MoreHops(files, homes, k, name, few - 1, many - 1);
    case _ =>
  }

  /** No bound on links is needed: with three homes a longer walk goes round in a circle. */
  lemma {:induction false} HopsSuffice(files: Files, homes: Homes, h: nat, name: string, hops: nat)
    requires h < 3 && hops >= 2
    ensures Resolve(files, homes, h, name, hops) == Resolve(files, homes, h, name, 2)
    decreases hops
  {
    if hops > 2 {
      match At(homes, h, name)
      case Some(Link(Twin(k))) =>
        if k < 3 {
          HopsSuffice(files, homes, k, name, hops - 1);
          match At(homes, k, name)
          case Some(Link(Twin(l))) =>
            if l < 3 {
              match At(homes, l, name)
              case Some(Link(Twin(m))) => assert Resolve(files, homes, l, name, 0).None?;
              case _ =>
            }
          case _ =>
        }
      case _ =>
    }
  }

  ghost predicate AllPresent(homes: Homes) {
    homes[0].Home? && homes[1].Home? && homes[2].Home?
  }

  // ---- cleaning ----

  ghost predicate SameElsewhere(a: Homes, b: Homes, c: nat, name: string) {
    forall k: nat :: k < 3 && k != c ==> At(b, k, name) == At(a, k, name)
  }

  /** Taking out one dangling link changes no other resolution. */
  lemma {:induction false} RemovalIsUnseen(files: Files, a: Homes, b: Homes, c: nat, h: nat, name: string, hops: nat)
    requires h < 3 && c < 3 && hops <= HOPS && Dangling(files, a, c, name)
    requires At(b, c, name) == None && SameElsewhere(a, b, c, name)
    ensures Resolve(files, b, h, name, hops) == Resolve(files, a, h, name, hops)
    decreases hops
  {
    if h == c {
      if Resolve(files, a, c, name, hops).Some? {
        MoreHops(files, a, c, name, hops, HOPS);
      }
    } else {
      match At(a, h, name)
      case Some(Link(Twin(k))) =>
        if hops > 0 && k < 3 {
          RemovalIsUnseen(files, a, b, c, k, name, hops - 1);
        }
      case _ =>
    }
  }

  /** Cleaning home after home takes out what dangled at the start, and resolves all else as before. */
  lemma {:induction false} CleanTakesDangling(files: Files, homes: Homes, n: nat, h: nat, name: string)
    requires n <= 3 && h < 3
    ensures var after := Clean(files, homes, n);
            && At(after, h, name) == (if h < n && Dangling(files, homes, h, name) then None else At(homes, h, name))
            && Resolve(files, after, h, name, HOPS) == Resolve(files, homes, h, name, HOPS)
            && (h < n ==> after[h].Home?)
  {
    if n > 0 {
      var before, after := Clean(files, homes, n - 1), Clean(files, homes, n);
      forall k: nat | k < 3
        ensures At(before, k, name)
             == (if k < n - 1 && Dangling(files, homes, k, name) then None else At(homes, k, name))
        ensures Resolve(files, before, k, name, HOPS) == Resolve(files, homes, k, name, HOPS)
      {
        CleanTakesDangling(files, homes, n - 1, k, name);
      }
      CleanTakesDangling(files, homes, n - 1, h, name);
      if Dangling(files, before, n - 1, name) {
        RemovalIsUnseen(files, before, after, n - 1, h, name, HOPS);
      } else {
        assert SameColumn(after, before, name);
        ResolveColumn(files, after, before, h, name, HOPS);
      }
    }
  }

  // ---- putting one skill in place ----

  ghost predicate Plain(files: Files, p: Provision) {
    !IsDots(p.name) && files(p.path).Some?
  }

  /** Pointing one more home at the right place keeps the others that lead there. */
  lemma {:induction false} LeadsThereStill(files: Files, a: Homes, b: Homes, c: nat, h: nat, name: string,
                                           place: Place, hops: nat)
    requires h < 3 && c < 3
    requires Resolve(files, b, c, name, 0) == Some(place) && SameElsewhere(a, b, c, name)
    requires Resolve(files, a, h, name, hops) == Some(place)
    ensures Resolve(files, b, h, name, hops) == Some(place)
    decreases hops
  {
    if h == c {
      MoreHops(files, b, c, name, 0, hops);
    } else {
      match At(a, h, name)
      case Some(Link(Twin(k))) => LeadsThereStill(files, a, b, c, k, name, place, hops - 1);
      case _ =>
    }
  }

  lemma PutAtWorks(files: Files, homes: Homes, h: nat, p: Provision)
    requires h < 3 && Plain(files, p) && AllPresent(homes)
    ensures var after := PutAt(files, homes, h, p);
            && after.ok && AllPresent(after.homes) && InPlace(files, after.homes, h, p)
            && (forall k: nat :: k < 3 && k != h ==> after.homes[k] == homes[k])
            && (forall k: nat :: k < 3 && InPlace(files, homes, k, p) ==> InPlace(files, after.homes, k, p))
  {
    var after := PutAt(files, homes, h, p).homes;
    if !InPlace(files, homes, h, p) && p.Package? {
      forall k: nat | k < 3 && k != h && InPlace(files, homes, k, p) ensures InPlace(files, after, k, p) {
        LeadsThereStill(files, homes, after, h, k, p.name, Far(files(p.path).value), HOPS);
      }
    }
  }

  lemma PutAtKeepsOthers(files: Files, homes: Homes, h: nat, p: Provision, name: string)
    requires h < 3 && Plain(files, p) && AllPresent(homes) && name != p.name
    ensures SameColumn(PutAt(files, homes, h, p).homes, homes, name)
  {
  }

  /** After a skill is put in the first n homes they have it, and the others are as they were. */
  lemma {:induction false} PutWorks(files: Files, homes: Homes, p: Provision, n: nat)
    requires n <= 3 && Plain(files, p) && AllPresent(homes)
    ensures var after := Put(files, homes, p, n);
            && after.ok && AllPresent(after.homes)
            && (forall k: nat :: k < n ==> InPlace(files, after.homes, k, p))
            && (forall k: nat :: n <= k < 3 ==> after.homes[k] == homes[k])
  {
    if n > 0 {
      PutWorks(files, homes, p, n - 1);
      PutAtWorks(files, Put(files, homes, p, n - 1).homes, n - 1, p);
    }
  }

  /** Putting a skill in place touches no other name. */
  lemma {:induction false} PutKeepsOthers(files: Files, homes: Homes, p: Provision, n: nat, name: string)
    requires n <= 3 && Plain(files, p) && AllPresent(homes) && name != p.name
    ensures SameColumn(Put(files, homes, p, n).homes, homes, name)
  {
    if n > 0 {
      PutWorks(files, homes, p, n - 1);
      PutKeepsOthers(files, homes, p, n - 1, name);
      PutAtKeepsOthers(files, Put(files, homes, p, n - 1).homes, n - 1, p, name);
    }
  }

  ghost predicate EverywhereInPlace(files: Files, homes: Homes, p: Provision) {
    InPlace(files, homes, 0, p) && InPlace(files, homes, 1, p) && InPlace(files, homes, 2, p)
  }

  /** Only the entries of one name decide whether its skill is in place. */
  lemma InPlaceColumn(files: Files, a: Homes, b: Homes, h: nat, p: Provision)
    requires h < 3 && Plain(files, p) && SameColumn(a, b, p.name)
    ensures InPlace(files, a, h, p) == InPlace(files, b, h, p)
  {
    ResolveColumn(files, a, b, h, p.name, HOPS);
  }

  // ---- putting all skills in place ----

  function Latest(ps: seq<Provision>, name: string): Option<Provision> {
    if ps == [] then None
    else if ps[|ps| - 1].name == name then Some(ps[|ps| - 1])
    else Latest(ps[..|ps| - 1], name)
  }

  ghost predicate AllPlain(files: Files, ps: seq<Provision>) {
    forall p <- ps :: Plain(files, p)
  }

  lemma {:induction false} PutAllWorks(files: Files, homes: Homes, ps: seq<Provision>, name: string)
    requires AllPlain(files, ps) && AllPresent(homes)
    ensures var after := PutAll(files, homes, ps);
            && after.ok && AllPresent(after.homes)
            && match Latest(ps, name)
               case None => SameColumn(after.homes, homes, name)
               case Some(p) => p.name == name && p in ps && EverywhereInPlace(files, after.homes, p)
  {
    if ps != [] {
      var p := ps[|ps| - 1];
      var earlier := ps[..|ps| - 1];
      PutAllWorks(files, homes, earlier, name);
      var before := PutAll(files, homes, earlier).homes;
      assert p in ps;
      PutWorks(files, before, p, 3);
      var after := PutAll(files, homes, ps).homes;
      if p.name != name {
        PutKeepsOthers(files, before, p, 3, name);
        match Latest(earlier, name)
        case Some(q) =>
          InPlaceColumn(files, after, before, 0, q);
          InPlaceColumn(files, after, before, 1, q);
          InPlaceColumn(files, after, before, 2, q);
        case None =>
      }
    }
  }

  // ---- sweeping ----

  /** What the sweep leaves of an entry. */
  ghost function Kept(files: Files, sources: seq<Source>, name: string, e: Option<Entry>): Option<Entry> {
    if e.Some? && Stale(files, sources, name, e.value) then None else e
  }

  lemma {:induction false} SweepTakesStale(files: Files, sources: seq<Source>, homes: Homes, n: nat, h: nat,
                                           name: string)
    requires n <= 3 && h < 3 && AllPresent(homes)
    ensures var after := Sweep(files, sources, homes, n);
            && after.ok && AllPresent(after.homes)
            && At(after.homes, h, name)
               == if h < n then Kept(files, sources, name, At(homes, h, name)) else At(homes, h, name)
  {
    if n > 0 {
      SweepTakesStale(files, sources, homes, n - 1, n - 1, name);
      SweepTakesStale(files, sources, homes, n - 1, h, name);
    }
  }

  predicate HasWrapper(homes: Homes, h: nat, name: string)
    requires h < 3
  {
    At(homes, h, name).Some? && At(homes, h, name).value.Wrapper?
  }

  /** A link that leads out of the homes does so past no wrapper. */
  lemma {:induction false} OutsideIsUnswept(files: Files, sources: seq<Source>, a: Homes, b: Homes, h: nat,
                                            name: string, hops: nat)
    requires h < 3
    requires forall k: nat :: k < 3 ==> At(b, k, name) == At(a, k, name) || HasWrapper(a, k, name)
    requires Resolve(files, a, h, name, hops).Some? && Resolve(files, a, h, name, hops).value.Far?
    ensures Resolve(files, b, h, name, hops) == Resolve(files, a, h, name, hops)
    decreases hops
  {
    match At(a, h, name)
    case Some(Link(Twin(k))) => OutsideIsUnswept(files, sources, a, b, k, name, hops - 1);
    case _ =>
  }

  lemma SweepKeepsInPlace(files: Files, sources: seq<Source>, homes: Homes, h: nat, p: Provision)
    requires h < 3 && AllPresent(homes) && Plain(files, p) && InPlace(files, homes, h, p)
    ensures InPlace(files, Sweep(files, sources, homes, 3).homes, h, p)
  {
    var after := Sweep(files, sources, homes, 3).homes;
    SweepTakesStale(files, sources, homes, 3, 0, p.name);
    SweepTakesStale(files, sources, homes, 3, 1, p.name);
    SweepTakesStale(files, sources, homes, 3, 2, p.name);
    if p.Package? {
      OutsideIsUnswept(files, sources, homes, after, h, p.name, HOPS);
    }
  }

  // ---- who provides a name ----

  ghost function FlatPath(s: Source, name: string): string {
    s.path + "/" + (name + ".md")
  }

  ghost predicate FlatFor(s: Source, e: RepoEntry, name: string) {
    IsFlat(s, e) && Base(e.name) == name
  }

  lemma FlatForPath(s: Source, e: RepoEntry)
    requires IsMarkdown(e.name)
    ensures PathOf(s, e) == FlatPath(s, Base(e.name))
  {
    assert e.name == Base(e.name) + ".md";
  }

  /** What one source provides under a name: a flat file only where it has no package of that name. */
  ghost function ProvidedBy(s: Source, name: string): Option<Provision> {
    if exists e <- s.entries :: FlatFor(s, e, name) then Some(Flat(name, FlatPath(s, name)))
    else if exists e <- s.entries :: IsPackage(e) && e.name == name then Some(Package(name, s.path + "/" + name))
    else None
  }

  /** The last source that provides the name decides. */
  ghost function Provider(sources: seq<Source>, name: string): Option<Provision> {
    if sources == [] then None
    else
      var last := ProvidedBy(sources[|sources| - 1], name);
      if last.Some? then last else Provider(sources[..|sources| - 1], name)
  }

  lemma {:induction false} LatestConcat(a: seq<Provision>, b: seq<Provision>, name: string)
    ensures Latest(a + b, name) == if Latest(b, name).Some? then Latest(b, name) else Latest(a, name)
  {
    if b == [] {
      assert a + b == a;
    } else {
      assert (a + b)[..|a + b| - 1] == a + b[..|b| - 1];
      LatestConcat(a, b[..|b| - 1], name);
    }
  }

  lemma {:induction false} LatestPackage(s: Source, n: nat, name: string)
    requires n <= |s.entries|
    ensures Latest(Packages(s, n), name)
         == if exists i :: 0 <= i < n && IsPackage(s.entries[i]) && s.entries[i].name == name
            then Some(Package(name, s.path + "/" + name)) else None
  {
    if n > 0 {
      var e := s.entries[n - 1];
      LatestPackage(s, n - 1, name);
      LatestConcat(Packages(s, n - 1), if IsPackage(e) then [Package(e.name, PathOf(s, e))] else [], name);
    }
  }

  lemma {:induction false} LatestFlat(s: Source, n: nat, name: string)
    requires n <= |s.entries|
    ensures Latest(Flats(s, n), name) == if SomeFlat(s, n, name) then Some(Flat(name, FlatPath(s, name))) else None
  {
    if n > 0 {
      var e := s.entries[n - 1];
      LatestFlat(s, n - 1, name);
      SomeFlatNext(s, n - 1, name);
      if IsFlat(s, e) {
        FlatForPath(s, e);
        LatestAppend(Flats(s, n - 1), Flat(Base(e.name), PathOf(s, e)), name);
      } else {
        assert Flats(s, n) == Flats(s, n - 1);
      }
    }
  }

  lemma SomeFlatNext(s: Source, n: nat, name: string)
    requires n < |s.entries|
    ensures SomeFlat(s, n + 1, name) <==> SomeFlat(s, n, name) || FlatFor(s, s.entries[n], name)
  {
  }

  lemma LatestAppend(ps: seq<Provision>, p: Provision, name: string)
    ensures Latest(ps + [p], name) == if p.name == name then Some(p) else Latest(ps, name)
  {
    assert (ps + [p])[..|ps|] == ps;
  }

  ghost predicate SomeFlat(s: Source, n: nat, name: string)
    requires n <= |s.entries|
  {
    exists i :: 0 <= i < n && FlatFor(s, s.entries[i], name)
  }

  lemma {:induction false} LatestIsProvider(sources: seq<Source>, name: string)
    ensures Latest(Provisions(sources), name) == Provider(sources, name)
  {
    if sources != [] {
      var s := sources[|sources| - 1];
      var n := |s.entries|;
      var before := Provisions(sources[..|sources| - 1]);
      LatestIsProvider(sources[..|sources| - 1], name);
      LatestFlat(s, n, name);
      LatestPackage(s, n, name);
      LatestConcat(before + Packages(s, n), Flats(s, n), name);
      LatestConcat(before, Packages(s, n), name);
    }
  }

  // ---- the main results ----

  /** What any directory listing satisfies: proper names, folders listed as such, and what is there resolves. */
  ghost predicate Lawful(files: Files, sources: seq<Source>) {
    forall s <- sources :: LawfulSource(files, s)
  }

  ghost predicate LawfulSource(files: Files, s: Source) {
    forall e <- s.entries ::
      && !IsDots(e.name) && (e.listedAsFolder ==> e.stat.Folder?)
      && (e.stat.Folder? || e.stat.File? ==> files(PathOf(s, e)).Some?)
  }

  /** No flat file is called so that, without its suffix, it names the home itself or the directory above. */
  ghost predicate Tame(sources: seq<Source>) {
    forall s <- sources :: TameSource(s)
  }

  ghost predicate TameSource(s: Source) {
    forall e <- s.entries :: IsFlat(s, e) ==> e.name != ".md" && e.name != "..md" && e.name != "...md"
  }

  lemma DottedName(name: string)
    requires IsMarkdown(name)
    ensures IsDots(Base(name)) <==> name == ".md" || name == "..md" || name == "...md"
  {
    assert name == Base(name) + ".md";
  }

  lemma {:induction false} PlainPackages(files: Files, s: Source, n: nat)
    requires n <= |s.entries| && LawfulSource(files, s)
    ensures AllPlain(files, Packages(s, n)) && forall p <- Packages(s, n) :: p.Package?
  {
    if n > 0 {
      PlainPackages(files, s, n - 1);
      assert s.entries[n - 1] in s.entries;
    }
  }

  lemma {:induction false} PlainFlats(files: Files, s: Source, n: nat)
    requires n <= |s.entries| && LawfulSource(files, s) && TameSource(s)
    ensures AllPlain(files, Flats(s, n))
  {
    if n > 0 {
      PlainFlats(files, s, n - 1);
      var e := s.entries[n - 1];
      assert e in s.entries;
      if IsFlat(s, e) {
        DottedName(e.name);
      }
    }
  }

  lemma {:induction false} PlainProvisions(files: Files, sources: seq<Source>)
    requires Lawful(files, sources) && Tame(sources)
    ensures AllPlain(files, Provisions(sources))
  {
    if sources != [] {
      var s := sources[|sources| - 1];
      assert s in sources;
      assert forall t <- sources[..|sources| - 1] :: t in sources;
      PlainProvisions(files, sources[..|sources| - 1]);
      PlainPackages(files, s, |s.entries|);
      PlainFlats(files, s, |s.entries|);
    }
  }

  /** A run leaves every provided name in place in every home; of the rest it takes out exactly what dangled. */
  lemma EveryHomeHasTheLatest(files: Files, sources: seq<Source>, homes: Homes, h: nat, name: string)
    requires Lawful(files, sources) && Tame(sources) && h < 3
    ensures var after := LinkAll(files, sources, homes);
            && after.ok && AllPresent(after.homes)
            && match Provider(sources, name)
               case Some(p) => Plain(files, p) && p.name == name && InPlace(files, after.homes, h, p)
               case None =>
                 At(after.homes, h, name)
                 == if Dangling(files, homes, h, name) then None else Kept(files, sources, name, At(homes, h, name))
  {
    var ps := Provisions(sources);
    PlainProvisions(files, sources);
    LatestIsProvider(sources, name);
    var cleaned := Clean(files, homes, 3);
    CleanTakesDangling(files, homes, 3, 0, name);
    CleanTakesDangling(files, homes, 3, 1, name);
    CleanTakesDangling(files, homes, 3, 2, name);
    PutAllWorks(files, cleaned, ps, name);
    var put := PutAll(files, cleaned, ps).homes;
    SweepTakesStale(files, sources, put, 3, h, name);
    match Latest(ps, name)
    case Some(p) => SweepKeepsInPlace(files, sources, put, h, p);
    case None =>
  }

  // ---- names made of dots ----

  /** Whatever is no link and no wrapper, and not the name of a skill, is still there after a run. */
  ghost predicate KeepsTheRest(files: Files, sources: seq<Source>, homes: Homes) {
    var after := LinkAll(files, sources, homes);
    && after.ok
    && forall h: nat, name :: h < 3 && Provider(sources, name).None? && At(homes, h, name) == Some(Real)
                              ==> At(after.homes, h, name) == Some(Real)
  }

  /** A name longer than all that are provided. */
  function Unused(ps: seq<Provision>): (name: string)
    ensures |name| > 8 && forall p <- ps :: |p.name| < |name|
  {
    if ps == [] then "own-skill"
    else
      var longer := Unused(ps[..|ps| - 1]);
      var last := ps[|ps| - 1].name;
      if |last| < |longer| then longer else last + "+"
  }

  lemma {:induction false} PutNeverAdds(files: Files, homes: Homes, p: Provision, n: nat, x: string)
    requires n <= 3 && |x| > 8 && p.name != x && At(homes, 0, x).None?
    ensures At(Put(files, homes, p, n).homes, 0, x).None?
  {
    if n > 0 {
      PutNeverAdds(files, homes, p, n - 1, x);
    }
  }

  /** A flat file with a dotted name empties the first home. */
  lemma DotsEmpty(files: Files, homes: Homes, p: Provision, x: string)
    requires p.Flat? && IsDots(p.name) && |x| > 8
    ensures At(Put(files, homes, p, 3).homes, 0, x).None?
  {
    var skill := "SKILL.md";
    assert |skill| == 8 && x != skill;
    assert Put(files, homes, p, 0) == Outcome(homes, true);
    assert At(PutAt(files, homes, 0, p).homes, 0, x).None?;
    PutsAfterFirst(files, homes, p, x);
  }

  lemma PutsAfterFirst(files: Files, homes: Homes, p: Provision, x: string)
    ensures var one := Put(files, homes, p, 1);
            Put(files, homes, p, 3).homes[0] == one.homes[0]
  {
    var two := Put(files, homes, p, 2);
    assert two.homes[0] == Put(files, homes, p, 1).homes[0];
  }

  lemma {:induction false} DotsLoseTheRest(files: Files, homes: Homes, ps: seq<Provision>, x: string)
    requires |x| > 8 && (forall p <- ps :: p.name != x && (IsDots(p.name) ==> p.Flat?))
    requires exists p <- ps :: IsDots(p.name)
    ensures var after := PutAll(files, homes, ps);
            after.ok ==> At(after.homes, 0, x).None?
  {
    var p := ps[|ps| - 1];
    var earlier := ps[..|ps| - 1];
    assert p in ps && forall q <- earlier :: q in ps;
    var before := PutAll(files, homes, earlier);
    if IsDots(p.name) {
      DotsEmpty(files, before.homes, p, x);
    } else {
      assert exists q <- earlier :: IsDots(q.name);
      DotsLoseTheRest(files, homes, earlier, x);
      if before.ok {
        PutNeverAdds(files, before.homes, p, 3, x);
      }
    }
  }

  lemma {:induction false} FlatsAreFlat(s: Source, n: nat)
    requires n <= |s.entries|
    ensures forall p <- Flats(s, n) :: p.Flat?
  {
    if n > 0 {
      FlatsAreFlat(s, n - 1);
    }
  }

  lemma {:induction false} FlatIsThere(s: Source, n: nat, i: nat)
    requires i < n <= |s.entries| && IsFlat(s, s.entries[i])
    ensures Flat(Base(s.entries[i].name), PathOf(s, s.entries[i])) in Flats(s, n)
  {
    if i < n - 1 {
      FlatIsThere(s, n - 1, i);
    }
  }

  /** Only flat files have dotted names, and they do when the sources are not tame. */
  lemma {:induction false} DottedProvisions(files: Files, sources: seq<Source>)
    requires Lawful(files, sources)
    ensures forall p <- Provisions(sources) :: IsDots(p.name) ==> p.Flat?
    ensures !Tame(sources) ==> exists p <- Provisions(sources) :: IsDots(p.name)
  {
    if sources != [] {
      var shorter, s := sources[..|sources| - 1], sources[|sources| - 1];
      var n := |s.entries|;
      assert s in sources && forall t <- shorter :: t in sources;
      DottedProvisions(files, shorter);
      PlainPackages(files, s, n);
      FlatsAreFlat(s, n);
      var all := Provisions(sources);
      assert all == Provisions(shorter) + Packages(s, n) + Flats(s, n);
      if !TameSource(s) {
        var i: nat :| i < n && IsFlat(s, s.entries[i])
                      && (s.entries[i].name == ".md" || s.entries[i].name == "..md" || s.entries[i].name == "...md");
        DottedName(s.entries[i].name);
        FlatIsThere(s, n, i);
        assert Flat(Base(s.entries[i].name), PathOf(s, s.entries[i])) in all;
      } else if !Tame(sources) {
        assert !Tame(shorter);
        var p :| p in Provisions(shorter) && IsDots(p.name);
        assert p in all;
      }
    }
  }

  lemma {:induction false} UnusedIsLatestOfNone(ps: seq<Provision>, x: string)
    requires forall p <- ps :: p.name != x
    ensures Latest(ps, x).None?
  {
    if ps != [] {
      UnusedIsLatestOfNone(ps[..|ps| - 1], x);
    }
  }

  /** A run keeps every hand-written skill of every home exactly when no flat file has a dotted name. */
  lemma RestIsKeptIffTame(files: Files, sources: seq<Source>)
    requires Lawful(files, sources)
    ensures Tame(sources) <==> forall homes :: KeepsTheRest(files, sources, homes)
  {
    if Tame(sources) {
      forall homes ensures KeepsTheRest(files, sources, homes) {
        EveryHomeHasTheLatest(files, sources, homes, 0, "");
        forall h: nat, name | h < 3 && Provider(sources, name).None? && At(homes, h, name) == Some(Real)
          ensures At(LinkAll(files, sources, homes).homes, h, name) == Some(Real)
        {
          EveryHomeHasTheLatest(files, sources, homes, h, name);
        }
      }
    } else {
      var homes := LosesOne(files, sources);
      assert !KeepsTheRest(files, sources, homes);
    }
  }

  /** Homes with a hand-written skill that a flat file with a dotted name makes the run lose. */
  lemma LosesOne(files: Files, sources: seq<Source>) returns (homes: Homes)
    requires Lawful(files, sources) && !Tame(sources)
    ensures !KeepsTheRest(files, sources, homes)
  {
    var ps := Provisions(sources);
    var x := Unused(ps);
    homes := seq(3, _ => Home(map[x := Real]));
    DottedProvisions(files, sources);
    UnusedIsLatestOfNone(ps, x);
    LatestIsProvider(sources, x);
    var cleaned := Clean(files, homes, 3);
    DotsLoseTheRest(files, cleaned, ps, x);
    var put := PutAll(files, cleaned, ps);
    if put.ok {
      SweepNeverAdds(files, sources, put.homes, 3, x);
    }
    assert At(homes, 0, x) == Some(Real);
  }

  /** A flat file called .md is enough: such sources are lawful and not tame. */
  lemma UntameIsPossible(files: Files, path: string)
    requires files(path + "/" + ".md").Some?
    ensures var s := Source(path, [RepoEntry(".md", false, File)], false);
            Lawful(files, [s]) && !Tame([s])
  {
    var e := RepoEntry(".md", false, File);
    var s := Source(path, [e], false);
    assert Base(e.name) == "";
    assert forall f <- s.entries :: f == e;
    assert e.name != "SKILL.md";
    assert Lower(Base(e.name)) == "";
    assert !HasPackage(s, Base(e.name)) && IsFlat(s, e);
    assert e in s.entries && s in [s] && !TameSource(s);
  }

  lemma {:induction false} SweepNeverAdds(files: Files, sources: seq<Source>, homes: Homes, n: nat, x: string)
    requires n <= 3 && At(homes, 0, x).None?
    ensures At(Sweep(files, sources, homes, n).homes, 0, x).None?
  {
    if n > 0 {
      SweepNeverAdds(files, sources, homes, n - 1, x);
    }
  }
}
