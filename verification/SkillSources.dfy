/**
 The results of the skill linker, told from outside: in terms of the files and
 folders that a directory listing shows, and of where entries of the homes lead.
 */
module SkillSources {
  import opened Prelude
  import opened SkillLinks
  import opened SkillResults

  // ---- what a listing shows ----

  /** A folder of this name with a regular SKILL.md inside. */
  ghost predicate HasRegularPackage(s: Source, name: string) {
    exists e <- s.entries :: e.name == name && e.stat == Folder(RegularSkill)
  }

  /** A folder of this name with a SKILL.md of any kind inside. */
  ghost predicate HasAnyPackage(s: Source, name: string) {
    exists e <- s.entries :: e.name == name && (e.stat == Folder(RegularSkill) || e.stat == Folder(OddSkill))
  }

  ghost predicate HasRegularFile(s: Source, file: string) {
    exists e <- s.entries :: e.name == file && e.stat == File && !e.listedAsFolder
  }

  /** The same letters, whatever their case; `small` is in lower case. */
  predicate SameLetters(a: string, small: string) {
    |a| == |small| && forall i :: 0 <= i < |a| ==>
                                    a[i] == small[i] || ('A' <= a[i] <= 'Z' && a[i] as int + 32 == small[i] as int)
  }

  predicate Reserved(name: string) {
    SameLetters(name, "readme") || SameLetters(name, "index")
  }

  lemma {:induction false} LowerLetters(a: string, small: string)
    requires forall i :: 0 <= i < |small| ==> 'a' <= small[i] <= 'z'
    ensures Lower(a) == small <==> SameLetters(a, small)
  {
    if a != [] && small != [] {
      LowerLetters(a[1..], small[1..]);
      var first := if 'A' <= a[0] <= 'Z' then a[0] - 'A' + 'a' else a[0];
      assert Lower(a) == [first] + Lower(a[1..]);
      if Lower(a) == small {
        assert first == small[0] && Lower(a[1..]) == small[1..];
        forall i | 0 <= i < |a|
          ensures a[i] == small[i] || ('A' <= a[i] <= 'Z' && a[i] as int + 32 == small[i] as int) {
          if i > 0 {
            assert a[i] == a[1..][i - 1] && small[i] == small[1..][i - 1];
          }
        }
      }
      if SameLetters(a, small) {
        assert SameLetters(a[1..], small[1..]);
        assert small == [small[0]] + small[1..];
      }
    }
  }

  lemma ReservedIs(name: string)
    requires IsMarkdown(name)
    ensures Ignored(name) <==> Reserved(Base(name))
  {
    LowerLetters(Base(name), "readme");
    LowerLetters(Base(name), "index");
  }

  // ---- what a source provides ----

  lemma FlatForExactly(s: Source, e: RepoEntry, name: string)
    requires !IsDots(name)
    ensures FlatFor(s, e, name)
       <==> e.name == name + ".md" && e.stat == File && !e.listedAsFolder && !Reserved(name) &&
            !HasRegularPackage(s, name)
  {
    if IsMarkdown(e.name) {
      ReservedIs(e.name);
      assert e.name == Base(e.name) + ".md";
    }
    if e.name == name + ".md" {
      assert IsMarkdown(e.name) && Base(e.name) == name;
    }
  }

  /**
   A regular package of a name is what its source provides. A flat file is
   provided exactly where there is no such package, unless it is called readme
   or index; a package whose SKILL.md is not regular only where there is none.
   */
  lemma ProvidedExactly(s: Source, name: string)
    requires !IsDots(name)
    ensures var flat := HasRegularFile(s, name + ".md") && !Reserved(name) && !HasRegularPackage(s, name);
            ProvidedBy(s, name) == if flat then Some(Flat(name, s.path + "/" + (name + ".md")))
            else if HasAnyPackage(s, name) then Some(Package(name, s.path + "/" + name))
            else None
    ensures HasRegularPackage(s, name) ==> ProvidedBy(s, name) == Some(Package(name, s.path + "/" + name))
  {
    forall e <- s.entries
      ensures FlatFor(s, e, name)
         <==> e.name == name + ".md" && e.stat == File && !e.listedAsFolder && !Reserved(name) &&
              !HasRegularPackage(s, name)
    {
      FlatForExactly(s, e, name);
    }
    assert HasAnyPackage(s, name) <==> exists e <- s.entries :: IsPackage(e) && e.name == name;
  }

  /**
   A name is managed exactly when some source lists a folder with a regular package of it, or such a
   flat file, regular or not.
   */
  lemma ManagedExactly(sources: seq<Source>, name: string)
    requires !IsDots(name)
    ensures Managed(sources, name) <==> exists s <- sources :: ManagesRaw(s, name)
  {
    forall s <- sources ensures ManagedBy(s, name) <==> ManagesRaw(s, name) {
      forall e <- s.entries ensures ManagesAs(s, e, name) <==> ManagesEntry(s, e, name) {
        if IsMarkdown(e.name) {
          ReservedIs(e.name);
          assert e.name == Base(e.name) + ".md";
        }
        if e.name == name + ".md" {
          assert IsMarkdown(e.name) && Base(e.name) == name;
        }
      }
    }
  }

  ghost predicate ManagesEntry(s: Source, e: RepoEntry, name: string) {
    if e.listedAsFolder then e.name == name && HasRegularPackage(s, name) else e.name == name + ".md" && !Reserved(name)
  }

  ghost predicate ManagesRaw(s: Source, name: string) {
    exists e <- s.entries :: ManagesEntry(s, e, name)
  }

  // ---- what a run leaves ----

  /** The last source that provides the name, and what it provides. */
  lemma {:induction false} ProviderIsLast(sources: seq<Source>, name: string, k: nat)
    requires k < |sources| && ProvidedBy(sources[k], name).Some?
    requires forall j :: k < j < |sources| ==> ProvidedBy(sources[j], name).None?
    ensures Provider(sources, name) == ProvidedBy(sources[k], name)
  {
    if k < |sources| - 1 {
      ProviderIsLast(sources[..|sources| - 1], name, k);
    }
  }

  /**
   After a run every home leads, under the name, to where the provided package
   is, or holds a wrapper whose link leads to the provided file; an entry nobody
   provides is gone if it was a dangling link, or an unmanaged wrapper whose link
   dangles, and otherwise as it was.
   */
  lemma HomesAfterRun(files: Files, sources: seq<Source>, homes: Homes, h: nat, name: string)
    requires Lawful(files, sources) && Tame(sources) && h < 3
    ensures var after := LinkAll(files, sources, homes).homes;
            match Provider(sources, name)
            case Some(Package(_, path)) =>
              files(path).Some? && Resolve(files, after, h, name, HOPS) == Some(Far(files(path).value))
            case Some(Flat(_, path)) =>
              && files(path).Some? && At(after, h, name).Some? && At(after, h, name).value.Wrapper?
              && files(At(after, h, name).value.skill) == files(path)
            case None =>
              var e := At(homes, h, name);
              At(after, h, name)
              == if e.Some? && e.value.Link? && Resolve(files, homes, h, name, HOPS) == None then None
              else if e.Some? && e.value.Wrapper? && files(e.value.skill) == None &&
                      !Managed(sources, name) then None
              else e
  {
    EveryHomeHasTheLatest(files, sources, homes, h, name);
  }
}
