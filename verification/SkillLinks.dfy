/**
 The skill linker: three runtime homes that must each hold, for every skill name,
 what the last source with that name provides.
 */
module SkillLinks {
  import opened Prelude

  // ---- the agent's runtime homes ----

  /** Where a link leads: outside the homes, or to the entry of the same name in another home. */
  datatype Target = Outside(path: string) | Twin(home: nat)

  /** A wrapper is a real directory holding one link, named SKILL.md; anything else that is no link is Real. */
  datatype Entry = Real | Link(target: Target) | Wrapper(skill: string)

  /** A home that does not exist may have a parent that holds one link, named SKILL.md, and nothing else. */
  datatype Home = Absent(parent: Option<string>) | Home(entries: map<string, Entry>)

  type Homes = homes: seq<Home> | |homes| == 3 witness [Absent(None), Absent(None), Absent(None)]

  /** Where paths outside the homes resolve to, if anywhere. */
  type Files = string -> Option<string>

  datatype Place = Far(path: string) | Near(home: nat)

  function EntriesOf(home: Home): map<string, Entry> {
    if home.Absent? then map[] else home.entries
  }

  function At(homes: Homes, h: nat, name: string): Option<Entry>
    requires h < 3
  {
    var entries := EntriesOf(homes[h]);
    if name in entries then Some(entries[name]) else None
  }

  /** Where an entry of a home resolves to, following links; three steps suffice, as more go round in a circle. */
  function Resolve(files: Files, homes: Homes, h: nat, name: string, hops: nat): Option<Place>
    requires h < 3
    decreases hops
  {
    match At(homes, h, name)
    case None => None
    case Some(Link(Outside(path))) => (match files(path) case None => None case Some(p) => Some(Far(p)))
    case Some(Link(Twin(k))) => if hops == 0 || k >= 3 then None else Resolve(files, homes, k, name, hops - 1)
    case Some(_) => Some(Near(h))
  }

  const HOPS: nat := 3

  predicate Dangling(files: Files, homes: Homes, h: nat, name: string)
    requires h < 3
  {
    At(homes, h, name).Some? && At(homes, h, name).value.Link? && Resolve(files, homes, h, name, HOPS).None?
  }

  // ---- what the sources hold ----

  datatype SkillFile = NoSkill | RegularSkill | OddSkill

  /** What following an entry of a source finds. */
  datatype Stat = Missing | Folder(skill: SkillFile) | File | Odd

  datatype RepoEntry = RepoEntry(name: string, listedAsFolder: bool, stat: Stat)

  /** One directory of skills; parentHasSkill says whether the directory above holds a regular SKILL.md. */
  datatype Source = Source(path: string, entries: seq<RepoEntry>, parentHasSkill: bool)

  /** A skill to put in place under a name, from a path: a package directory or a flat file. */
  datatype Provision = Package(name: string, path: string) | Flat(name: string, path: string)

  function Lower(s: string): string {
    if s == [] then [] else [if 'A' <= s[0] <= 'Z' then s[0] - 'A' + 'a' else s[0]] + Lower(s[1..])
  }

  predicate IsMarkdown(name: string) {
    |name| >= 3 && name[|name| - 3..] == ".md"
  }

  function Base(name: string): string
    requires IsMarkdown(name)
  {
    name[..|name| - 3]
  }

  predicate Ignored(name: string)
    requires IsMarkdown(name)
  {
    Lower(Base(name)) == "readme" || Lower(Base(name)) == "index"
  }

  /** hasPackageSkill: whether source/name/SKILL.md is a regular file; a name may also lead to the source or above. */
  predicate HasPackage(source: Source, name: string) {
    if name == ".." then source.parentHasSkill
    else if name == "" || name == "." then exists e <- source.entries :: e.name == "SKILL.md" && e.stat.File?
    else exists e <- source.entries :: e.name == name && e.stat == Folder(RegularSkill)
  }

  predicate IsPackage(e: RepoEntry) {
    e.stat.Folder? && e.stat.skill != NoSkill
  }

  predicate IsFlat(source: Source, e: RepoEntry) {
    && !e.listedAsFolder && IsMarkdown(e.name) && !Ignored(e.name)
    && e.stat.File? && !HasPackage(source, Base(e.name))
  }

  function PathOf(source: Source, e: RepoEntry): string {
    source.path + "/" + e.name
  }

  function Packages(source: Source, n: nat): seq<Provision>
    requires n <= |source.entries|
  {
    if n == 0 then []
    else
      var e := source.entries[n - 1];
      Packages(source, n - 1) + if IsPackage(e) then [Package(e.name, PathOf(source, e))] else []
  }

  function Flats(source: Source, n: nat): seq<Provision>
    requires n <= |source.entries|
  {
    if n == 0 then []
    else
      var e := source.entries[n - 1];
      Flats(source, n - 1) + if IsFlat(source, e) then [Flat(Base(e.name), PathOf(source, e))] else []
  }

  /** Everything put in place, in order: source after source, packages before flat files. */
  function Provisions(sources: seq<Source>): seq<Provision> {
    if sources == [] then []
    else
      var s := sources[|sources| - 1];
      Provisions(sources[..|sources| - 1]) + Packages(s, |s.entries|) + Flats(s, |s.entries|)
  }

  /** managedSkillNames. */
  predicate Managed(sources: seq<Source>, name: string) {
    exists s <- sources :: ManagedBy(s, name)
  }

  predicate ManagedBy(s: Source, name: string) {
    exists e <- s.entries :: ManagesAs(s, e, name)
  }

  predicate ManagesAs(s: Source, e: RepoEntry, name: string) {
    if e.listedAsFolder then e.name == name && HasPackage(s, name)
    else IsMarkdown(e.name) && !Ignored(e.name) && Base(e.name) == name
  }

  // ---- what one run does ----

  datatype Outcome = Outcome(homes: Homes, ok: bool)

  predicate IsDots(name: string) {
    name == "" || name == "." || name == ".."
  }

  /** linkPointsAt: both resolve, to the same place. */
  predicate PointsAt(files: Files, homes: Homes, h: nat, name: string, path: string)
    requires h < 3
  {
    files(path).Some? && Resolve(files, homes, h, name, HOPS) == Some(Far(files(path).value))
  }

  /** Whether a home already has the skill in place. */
  predicate InPlace(files: Files, homes: Homes, h: nat, p: Provision)
    requires h < 3
  {
    match p
    case Package(name, path) => PointsAt(files, homes, h, name, path)
    case Flat(name, path) =>
      if name == ".." then homes[h].Absent? && homes[h].parent.Some? && SameFile(files, homes[h].parent.value, path)
      else if name == "" || name == "." then homes[h].Home? && homes[h].entries.Keys == {"SKILL.md"} &&
                                             PointsAt(files, homes, h, "SKILL.md", path)
      else At(homes, h, name).Some? && At(homes, h, name).value.Wrapper? &&
           SameFile(files, At(homes, h, name).value.skill, path)
  }

  predicate SameFile(files: Files, a: string, b: string) {
    files(a).Some? && files(a) == files(b)
  }

  /** Puts a skill in place in one home; a flat file named after the home, or after its parent, replaces that. */
  function PutAt(files: Files, homes: Homes, h: nat, p: Provision): Outcome
    requires h < 3
  {
    if InPlace(files, homes, h, p) then Outcome(homes, true)
    else
      match p
      case Package(name, path) =>
        if homes[h].Absent? then Outcome(homes, false)
        else Outcome(homes[h := Home(homes[h].entries[name := Link(Outside(path))])], true)
      case Flat(name, path) =>
        if name == ".." then Outcome(homes[h := Absent(Some(path))], true)
        else if name == "" || name == "." then Outcome(homes[h := Home(map["SKILL.md" := Link(Outside(path))])], true)
        else Outcome(homes[h := Home(EntriesOf(homes[h])[name := Wrapper(path)])], true)
  }

  /** Puts a skill in place in the first n homes, stopping at an error. */
  function Put(files: Files, homes: Homes, p: Provision, n: nat): Outcome
    requires n <= 3
  {
    if n == 0 then Outcome(homes, true)
    else
      var before := Put(files, homes, p, n - 1);
      if before.ok then PutAt(files, before.homes, n - 1, p) else before
  }

  function PutAll(files: Files, homes: Homes, ps: seq<Provision>): Outcome {
    if ps == [] then Outcome(homes, true)
    else
      var before := PutAll(files, homes, ps[..|ps| - 1]);
      if before.ok then Put(files, before.homes, ps[|ps| - 1], 3) else before
  }

  /** Makes sure that a home exists and takes out its dangling links. */
  function CleanAt(files: Files, homes: Homes, h: nat): Homes
    requires h < 3
  {
    var entries := EntriesOf(homes[h]);
    homes[h := Home(map name | name in entries && !Dangling(files, homes, h, name) :: entries[name])]
  }

  function Clean(files: Files, homes: Homes, n: nat): Homes
    requires n <= 3
  {
    if n == 0 then homes else CleanAt(files, Clean(files, homes, n - 1), n - 1)
  }

  predicate Stale(files: Files, sources: seq<Source>, name: string, e: Entry) {
    !Managed(sources, name) && e.Wrapper? && files(e.skill).None?
  }

  function SweepAt(files: Files, sources: seq<Source>, homes: Homes, h: nat): Outcome
    requires h < 3
  {
    if homes[h].Absent? then Outcome(homes, false)
    else
      var entries := homes[h].entries;
      Outcome(homes[h := Home(map name | name in entries &&
                                         !Stale(files, sources, name, entries[name]) :: entries[name])], true)
  }

  function Sweep(files: Files, sources: seq<Source>, homes: Homes, n: nat): Outcome
    requires n <= 3
  {
    if n == 0 then Outcome(homes, true)
    else
      var before := Sweep(files, sources, homes, n - 1);
      if before.ok then SweepAt(files, sources, before.homes, n - 1) else before
  }

  /** One run of the linker. */
  function LinkAll(files: Files, sources: seq<Source>, homes: Homes): Outcome {
    var put := PutAll(files, Clean(files, homes, 3), Provisions(sources));
    if put.ok then Sweep(files, sources, put.homes, 3) else put
  }

  // ---- how the parts of a run compose ----

  lemma {:induction false} PutAllSplit(files: Files, homes: Homes, a: seq<Provision>, b: seq<Provision>)
    ensures var first := PutAll(files, homes, a);
            PutAll(files, homes, a + b) == if first.ok then PutAll(files, first.homes, b) else first
  {
    if b == [] {
      assert a + b == a;
    } else {
      assert (a + b)[..|a + b| - 1] == a + b[..|b| - 1];
      PutAllSplit(files, homes, a, b[..|b| - 1]);
    }
  }

  lemma PutAllOne(files: Files, homes: Homes, a: seq<Provision>, p: Provision)
    requires PutAll(files, homes, a).ok
    ensures PutAll(files, homes, a + [p]) == Put(files, PutAll(files, homes, a).homes, p, 3)
  {
    assert (a + [p])[..|a|] == a;
  }

  /** Resolution looks at the entries of one name only. */
  lemma {:induction false} ResolveColumn(files: Files, a: Homes, b: Homes, h: nat, name: string, hops: nat)
    requires h < 3 && SameColumn(a, b, name)
    ensures Resolve(files, a, h, name, hops) == Resolve(files, b, h, name, hops)
    decreases hops
  {
    match At(a, h, name)
    case Some(Link(Twin(k))) =>
      if hops > 0 && k < 3 {
        ResolveColumn(files, a, b, k, name, hops - 1);
      }
    case _ =>
  }

  ghost predicate SameColumn(a: Homes, b: Homes, name: string) {
    forall k: nat :: k < 3 ==> At(a, k, name) == At(b, k, name)
  }

  /** A home without those of its dangling links whose names are not in rest. */
  ghost function CleanedSoFar(files: Files, homes: Homes, h: nat, rest: set<string>): Homes
    requires h < 3
  {
    var entries := EntriesOf(homes[h]);
    homes[h := Home(map name | name in entries && (name in rest || !Dangling(files, homes, h, name)) :: entries[name])]
  }

  lemma CleanOneMore(files: Files, homes: Homes, h: nat, rest: set<string>, name: string)
    requires h < 3 && name in rest && name in EntriesOf(homes[h])
    ensures var now, next := CleanedSoFar(files, homes, h, rest), CleanedSoFar(files, homes, h, rest - {name});
            && now[h].Home? && At(now, h, name) == At(homes, h, name)
            && Dangling(files, now, h, name) == Dangling(files, homes, h, name)
            && next == if Dangling(files, homes, h, name) then now[h := Home(now[h].entries - {name})] else now
  {
    var now, next := CleanedSoFar(files, homes, h, rest), CleanedSoFar(files, homes, h, rest - {name});
    assert SameColumn(now, homes, name);
    ResolveColumn(files, now, homes, h, name, HOPS);
    if Dangling(files, homes, h, name) {
      assert next[h].entries == now[h].entries - {name};
    } else {
      assert next[h].entries == now[h].entries;
      assert next == now;
    }
  }

  ghost function SweptSoFar(files: Files, sources: seq<Source>, entries: map<string, Entry>,
                            rest: set<string>): map<string, Entry> {
    map name | name in entries && (name in rest || !Stale(files, sources, name, entries[name])) :: entries[name]
  }

  // ---- the run as the program makes it ----

  method ManagedSkillNames(sources: seq<Source>) returns (names: set<string>)
    ensures forall name :: name in names <==> Managed(sources, name)
  {
    names := {};
    for i := 0 to |sources|
      invariant forall name :: name in names <==> exists k :: 0 <= k < i && ManagedBy(sources[k], name)
    {
      var more := ManagedNamesOf(sources[i]);
      names := names + more;
    }
  }

  method ManagedNamesOf(s: Source) returns (names: set<string>)
    ensures forall name :: name in names <==> ManagedBy(s, name)
  {
    names := {};
    for i := 0 to |s.entries|
      invariant forall name :: name in names <==> exists k :: 0 <= k < i && ManagesAs(s, s.entries[k], name)
    {
      var e := s.entries[i];
      if e.listedAsFolder {
        if HasPackage(s, e.name) {
          names := names + {e.name};
        }
      } else if IsMarkdown(e.name) && !Ignored(e.name) {
        names := names + {Base(e.name)};
      }
    }
  }

  class Linker {
    var homes: Homes

    constructor (start: Homes)
      ensures homes == start
    {
      homes := start;
    }

    /** Makes the home, and then takes out its dangling links, in any order. */
    method RemoveDanglingLinks(files: Files, h: nat)
      requires h < 3
      modifies this
      ensures homes == CleanAt(files, old(homes), h)
    {
      var rest: set<string> := EntriesOf(homes[h]).Keys;
      homes := homes[h := Home(EntriesOf(homes[h]))];
      ghost var start := old(homes);
      assert homes[h].entries == CleanedSoFar(files, start, h, rest)[h].entries;
      assert homes == CleanedSoFar(files, start, h, rest);
      while rest != {}
        invariant rest <= EntriesOf(start[h]).Keys && homes == CleanedSoFar(files, start, h, rest)
        decreases |rest|
      {
        var name :| name in rest;
        CleanOneMore(files, start, h, rest, name);
        if Dangling(files, homes, h, name) {
          homes := homes[h := Home(homes[h].entries - {name})];
        }
        rest := rest - {name};
      }
      assert homes[h].entries == CleanAt(files, start, h)[h].entries;
    }

    /** Gives one home the skill, unless it has it already. */
    method PutOne(files: Files, h: nat, p: Provision) returns (ok: bool)
      requires h < 3
      modifies this
      ensures Outcome(homes, ok) == PutAt(files, old(homes), h, p)
    {
      if InPlace(files, homes, h, p) {
        return true;
      }
      var name, path := p.name, p.path;
      if p.Package? {
        if homes[h].Absent? {
          return false;
        }
        homes := homes[h := Home(homes[h].entries[name := Link(Outside(path))])];
      } else if name == ".." {
        homes := homes[h := Absent(Some(path))];
      } else if name == "" || name == "." {
        homes := homes[h := Home(map["SKILL.md" := Link(Outside(path))])];
      } else {
        homes := homes[h := Home(EntriesOf(homes[h])[name := Wrapper(path)])];
      }
      return true;
    }

    /** Gives every home the skill, up to the first error. */
    method PutEverywhere(files: Files, p: Provision) returns (ok: bool)
      modifies this
      ensures Outcome(homes, ok) == Put(files, old(homes), p, 3)
    {
      ok := true;
      for h := 0 to 3
        invariant ok && Outcome(homes, true) == Put(files, old(homes), p, h)
      {
        ok := PutOne(files, h, p);
        if !ok {
          StopsEarly(files, old(homes), p, h + 1);
          return;
        }
      }
    }

    /** One entry of the first pass. */
    method LinkPackageOne(files: Files, s: Source, e: RepoEntry, ghost start: Homes, ghost done: seq<Provision>)
      returns (ok: bool)
      requires PutAll(files, start, done) == Outcome(homes, true)
      modifies this
      ensures PutAll(files, start, if IsPackage(e) then done + [Package(e.name, PathOf(s, e))] else done)
           == Outcome(homes, ok)
    {
      ok := true;
      if IsPackage(e) {
        PutAllOne(files, start, done, Package(e.name, PathOf(s, e)));
        ok := PutEverywhere(files, Package(e.name, PathOf(s, e)));
      }
    }

    /** The first pass over one source: its packages. */
    method LinkPackages(files: Files, s: Source, ghost start: Homes, ghost before: seq<Provision>) returns (ok: bool)
      requires PutAll(files, start, before) == Outcome(homes, true)
      modifies this
      ensures PutAll(files, start, before + Packages(s, |s.entries|)) == Outcome(homes, ok)
    {
      ok := true;
      assert before + [] == before;
      for i := 0 to |s.entries|
        invariant ok && PutAll(files, start, before + Packages(s, i)) == Outcome(homes, true)
      {
        PackagesNext(s, i, before);
        ok := LinkPackageOne(files, s, s.entries[i], start, before + Packages(s, i));
        if !ok {
          PackagesFail(files, start, before, s, i + 1);
          return;
        }
      }
    }

    /** One entry of the second pass. */
    method LinkFlatOne(files: Files, s: Source, e: RepoEntry, ghost start: Homes, ghost done: seq<Provision>)
      returns (ok: bool)
      requires PutAll(files, start, done) == Outcome(homes, true)
      modifies this
      ensures PutAll(files, start, if IsFlat(s, e) then done + [Flat(Base(e.name), PathOf(s, e))] else done)
           == Outcome(homes, ok)
    {
      ok := true;
      if IsFlat(s, e) {
        PutAllOne(files, start, done, Flat(Base(e.name), PathOf(s, e)));
        ok := PutEverywhere(files, Flat(Base(e.name), PathOf(s, e)));
      }
    }

    /** The second pass: its flat files. */
    method LinkFlats(files: Files, s: Source, ghost start: Homes, ghost before: seq<Provision>) returns (ok: bool)
      requires PutAll(files, start, before) == Outcome(homes, true)
      modifies this
      ensures PutAll(files, start, before + Flats(s, |s.entries|)) == Outcome(homes, ok)
    {
      ok := true;
      assert before + [] == before;
      for i := 0 to |s.entries|
        invariant ok && PutAll(files, start, before + Flats(s, i)) == Outcome(homes, true)
      {
        FlatsNext(s, i, before);
        ok := LinkFlatOne(files, s, s.entries[i], start, before + Flats(s, i));
        if !ok {
          FlatsFail(files, start, before, s, i + 1);
          return;
        }
      }
    }

    method RemoveStaleWrappers(files: Files, h: nat, names: set<string>, ghost sources: seq<Source>) returns (ok: bool)
      requires h < 3 && forall name :: name in names <==> Managed(sources, name)
      modifies this
      ensures Outcome(homes, ok) == SweepAt(files, sources, old(homes), h)
    {
      if homes[h].Absent? {
        return false;
      }
      var entries := homes[h].entries;
      var rest: set<string> := entries.Keys;
      assert entries == SweptSoFar(files, sources, entries, rest);
      while rest != {}
        invariant rest <= entries.Keys && homes == old(homes)[h := Home(SweptSoFar(files, sources, entries, rest))]
        decreases |rest|
      {
        var name :| name in rest;
        ghost var now, next := SweptSoFar(files, sources, entries, rest),
                               SweptSoFar(files, sources, entries, rest - {name});
        assert next == if Stale(files, sources, name, entries[name]) then now - {name} else now;
        if name !in names && entries[name].Wrapper? && files(entries[name].skill).None? {
          homes := homes[h := Home(homes[h].entries - {name})];
        }
        rest := rest - {name};
      }
      assert homes[h].entries == SweepAt(files, sources, old(homes), h).homes[h].entries;
      return true;
    }

    /** linkAll. */
    method LinkEverything(files: Files, sources: seq<Source>) returns (ok: bool)
      modifies this
      ensures Outcome(homes, ok) == LinkAll(files, sources, old(homes))
    {
      for h := 0 to 3
        invariant homes == Clean(files, old(homes), h)
      {
        RemoveDanglingLinks(files, h);
      }
      var names := ManagedSkillNames(sources);
      ghost var start := homes;
      for i := 0 to |sources|
        invariant PutAll(files, start, Provisions(sources[..i])) == Outcome(homes, true)
      {
        assert sources[..i + 1][..i] == sources[..i];
        ghost var before, s := Provisions(sources[..i]), sources[i];
        ok := LinkPackages(files, sources[i], start, before);
        if ok {
          ok := LinkFlats(files, sources[i], start, before + Packages(s, |s.entries|));
        } else {
          FailsForGood(files, start, before + Packages(s, |s.entries|), Provisions(sources[..i + 1]));
        }
        if !ok {
          ProvisionsGrow(sources, i + 1);
          FailsForGood(files, start, Provisions(sources[..i + 1]), Provisions(sources));
          return;
        }
      }
      assert sources[..|sources|] == sources;
      ok := SweepAll(files, names, sources);
    }

    method SweepAll(files: Files, names: set<string>, ghost sources: seq<Source>) returns (ok: bool)
      requires forall name :: name in names <==> Managed(sources, name)
      modifies this
      ensures Outcome(homes, ok) == Sweep(files, sources, old(homes), 3)
    {
      ok := true;
      for h := 0 to 3
        invariant ok && Outcome(homes, true) == Sweep(files, sources, old(homes), h)
      {
        ok := RemoveStaleWrappers(files, h, names, sources);
        if !ok {
          SweepStops(files, sources, old(homes), h + 1);
          return;
        }
      }
    }
  }

  // ---- a run that fails stays failed ----

  lemma {:induction false} StopsEarly(files: Files, homes: Homes, p: Provision, n: nat)
    requires n <= 3 && !Put(files, homes, p, n).ok
    ensures Put(files, homes, p, 3) == Put(files, homes, p, n)
    decreases 3 - n
  {
    if n < 3 {
      StopsEarly(files, homes, p, n + 1);
    }
  }

  lemma {:induction false} SweepStops(files: Files, sources: seq<Source>, homes: Homes, n: nat)
    requires n <= 3 && !Sweep(files, sources, homes, n).ok
    ensures Sweep(files, sources, homes, 3) == Sweep(files, sources, homes, n)
    decreases 3 - n
  {
    if n < 3 {
      SweepStops(files, sources, homes, n + 1);
    }
  }

  lemma FailsForGood(files: Files, homes: Homes, ps: seq<Provision>, all: seq<Provision>)
    requires ps <= all && !PutAll(files, homes, ps).ok
    ensures PutAll(files, homes, all) == PutAll(files, homes, ps)
  {
    PutAllSplit(files, homes, ps, all[|ps|..]);
    assert ps + all[|ps|..] == all;
  }

  lemma PackagesFail(files: Files, start: Homes, before: seq<Provision>, s: Source, n: nat)
    requires n <= |s.entries| && !PutAll(files, start, before + Packages(s, n)).ok
    ensures PutAll(files, start, before + Packages(s, |s.entries|)) == PutAll(files, start, before + Packages(s, n))
  {
    PackagesGrow(s, n, |s.entries|);
    FailsForGood(files, start, before + Packages(s, n), before + Packages(s, |s.entries|));
  }

  lemma FlatsFail(files: Files, start: Homes, before: seq<Provision>, s: Source, n: nat)
    requires n <= |s.entries| && !PutAll(files, start, before + Flats(s, n)).ok
    ensures PutAll(files, start, before + Flats(s, |s.entries|)) == PutAll(files, start, before + Flats(s, n))
  {
    FlatsGrow(s, n, |s.entries|);
    FailsForGood(files, start, before + Flats(s, n), before + Flats(s, |s.entries|));
  }

  /** One more entry of a source is one more package, or nothing. */
  lemma PackagesNext(s: Source, i: nat, before: seq<Provision>)
    requires i < |s.entries|
    ensures var e := s.entries[i];
            var done := before + Packages(s, i);
            before + Packages(s, i + 1) == if IsPackage(e) then done + [Package(e.name, PathOf(s, e))] else done
  {
  }

  lemma FlatsNext(s: Source, i: nat, before: seq<Provision>)
    requires i < |s.entries|
    ensures var e := s.entries[i];
            var done := before + Flats(s, i);
            before + Flats(s, i + 1) == if IsFlat(s, e) then done + [Flat(Base(e.name), PathOf(s, e))] else done
  {
  }

  lemma {:induction false} PackagesGrow(s: Source, m: nat, n: nat)
    requires m <= n <= |s.entries|
    ensures Packages(s, m) <= Packages(s, n)
  {
    if m < n {
      PackagesGrow(s, m, n - 1);
    }
  }

  lemma {:induction false} FlatsGrow(s: Source, m: nat, n: nat)
    requires m <= n <= |s.entries|
    ensures Flats(s, m) <= Flats(s, n)
  {
    if m < n {
      FlatsGrow(s, m, n - 1);
    }
  }

  lemma {:induction false} ProvisionsGrow(sources: seq<Source>, n: nat)
    requires n <= |sources|
    ensures Provisions(sources[..n]) <= Provisions(sources)
  {
    if n < |sources| {
      var shorter := sources[..|sources| - 1];
      assert shorter[..n] == sources[..n];
      ProvisionsGrow(shorter, n);
    } else {
      assert sources[..n] == sources;
    }
  }
}
