/** Which patterns are in force where, and what a repository does to a scan. */
module RepositoryScopes {
  import opened Collections
  import opened Gitignore
  import opened IgnoreSyntax
  import opened DirectoryScan

  lemma {:induction false} PatternsInMember(lines: seq<string>, dir: string, p: IgnorePattern)
    ensures p in PatternsIn(lines, dir) <==> exists line :: line in lines && PatternOf(line, dir) == Some(p)
  {
    hide PatternOf;
    if lines != [] {
      var before, line := lines[..|lines| - 1], lines[|lines| - 1];
      assert lines == before + [line];
      PatternsInMember(before, dir, p);
      PatternsInSnoc(before, line, dir);
    }
  }

  /** A directory brings with it what its own .gitignore says, if it lies in a repository or is the root
      of one, and at the root the pattern for .git, which comes last; outside of repositories it brings
      nothing. */
  lemma OwnPatternsIff(info: DirInfo, dir: string, inRepo: bool, p: IgnorePattern)
    ensures var own, git := OwnPatterns(info, dir, inRepo), IgnorePattern(".git", false, true, dir);
            && (p in own <==>
                  || (info.isRepo && p == git)
                  || ((inRepo || info.isRepo) && info.gitignore.Some?
                      && exists line :: line in Lines(info.gitignore.value) && PatternOf(line, dir) == Some(p)))
            && (info.isRepo ==> own != [] && own[|own| - 1] == git)
  {
    PatternsInMember(DirLines(info), dir, p);
    hide PatternOf, Lines, PatternsIn;
  }

  /** Whatever its .gitignore and those around it say, the .git directory of a repository is ignored. */
  lemma GitIsIgnored(fn: Fnmatch, scope: seq<IgnorePattern>, info: DirInfo, dir: string, inRepo: bool)
    requires info.isRepo && fn(".git", ".git", false)
    ensures Decide(fn, Scope(scope, info, dir, inRepo), Join(dir, ".git"), true)
  {
    var ps, git := Scope(scope, info, dir, inRepo), IgnorePattern(".git", false, true, dir);
    OwnPatternsIff(info, dir, inRepo, git);
    assert ps[|ps| - 1] == git;
    assert SeenFrom(Join(dir, ".git"), dir, if dir == "." then "./.git" else ".git");
    GitCompared();
    HitsIff(fn, git, Join(dir, ".git"), true);
    hide Hits, Scope, ComparedTo, SeenFrom;
  }

  lemma GitCompared()
    ensures ComparedTo(".git", ".git", ".git", false) && ComparedTo(".git", "./.git", ".git", false)
  {
    assert RestOf(".git", 0, ".git");
    assert "./.git"[2..] == ".git" && RestOf("./.git", 2, ".git");
  }

  /** Neither the directory nor any below it is the root of a repository. */
  ghost predicate NoRepository(node: Node)
    decreases node
  {
    node.Dir? ==> !node.info.isRepo && forall n | n in node.entries :: NoRepository(node.entries[n])
  }

  /** Outside of repositories nothing is ever asked or ignored, and no pattern is read. */
  lemma {:induction false} OutsideNothingIsIgnored(fn: Fnmatch, order: Listing, dir: string, node: Node, scope: seq<IgnorePattern>)
    requires node.Dir? && NoRepository(node)
    ensures var scoped := ScopedDir(fn, order, dir, node, false, scope);
            scoped.log == [] && scoped.met == []
    decreases node, 1
  {
    if node.info.opens {
      EntriesOutside(fn, order(dir), order, dir, node, Scope(scope, node.info, dir, false));
    }
  }

  lemma {:induction false} EntriesOutside(fn: Fnmatch, names: seq<string>, order: Listing, dir: string, node: Node, scope: seq<IgnorePattern>)
    requires node.Dir? && NoRepository(node)
    ensures var scoped := ScopedEntries(fn, names, order, dir, node, false, scope);
            scoped.log == [] && scoped.met == []
    decreases node, 0, |names|
  {
    if names != [] {
      EntriesOutside(fn, names[..|names| - 1], order, dir, node, scope);
      var name := names[|names| - 1];
      if name in node.entries && node.entries[name].Dir? {
        OutsideNothingIsIgnored(fn, order, Join(dir, name), node.entries[name], scope);
      }
    }
  }
}
