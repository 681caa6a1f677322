/** The recursive scan with one global pattern list, and the scoped scan it agrees with. */
module DirectoryScan {
  import opened Collections
  import opened Gitignore

  const MAX_FILES: nat := 10000

  // ----- The file system -----

  /** What the scan asks of a directory besides its entries: can it be opened, does it hold a
      .git directory, and what is in its .gitignore, if it has one. */
  datatype DirInfo = DirInfo(opens: bool, isRepo: bool, gitignore: Option<string>)

  datatype Node =
    | Dir(info: DirInfo, entries: map<string, Node>)
    | Regular(size: nat, lines: nat)
    | Special
    | Vanished  // lstat fails

  /** The names readdir yields for a directory, by its path. */
  type Listing = string -> seq<string>

  function Join(dir: string, name: string): string
  {
    dir + "/" + name
  }

  predicate DotName(name: string)
  {
    name == "." || name == ".."
  }

  /** Entry names contain no slash, and a listing yields each of them once, in any order. */
  ghost predicate WellListed(order: Listing, dir: string, node: Node)
    decreases node
  {
    node.Dir? ==>
      && (forall j, k | 0 <= j < k < |order(dir)| :: order(dir)[j] != order(dir)[k])
      && (forall n | n in order(dir) :: n == "." || n == ".." || n in node.entries)
      && (forall n | n in node.entries :: n in order(dir) && '/' !in n && n != "." && n != "..")
      && (forall n | n in node.entries :: WellListed(order, Join(dir, n), node.entries[n]))
  }

  // ----- The scan as it is -----

  datatype FileEntry = FileEntry(path: string, size: nat, lines: nat)

  /** One call of shouldIgnore and its answer. */
  datatype Decision = Decision(path: string, isDir: bool, ignored: bool)

  datatype ScanState = ScanState(patterns: seq<IgnorePattern>, files: seq<FileEntry>, log: seq<Decision>)

  function DirLines(info: DirInfo): seq<string>
  {
    if info.gitignore.Some? then Lines(info.gitignore.value) else []
  }

  /** Patterns a directory brings with it: its .gitignore inside a repository, and .git/ at its root. */
  function Enter(ps: seq<IgnorePattern>, info: DirInfo, dir: string, inRepo: bool): seq<IgnorePattern>
  {
    if info.isRepo then Add(AddLines(ps, DirLines(info), dir), ".git/", dir)
    else if inRepo then AddLines(ps, DirLines(info), dir)
    else ps
  }

  function Store(files: seq<FileEntry>, e: FileEntry): seq<FileEntry>
  {
    if |files| < MAX_FILES then files + [e] else files
  }

  function ScanDir(fn: Fnmatch, order: Listing, dir: string, node: Node, inRepo: bool, st: ScanState): (nat, ScanState)
    requires node.Dir?
    decreases node, 1, 0
  {
    if !node.info.opens then (0, st) else
    ScanEntries(fn, order(dir), order, dir, node, inRepo || node.info.isRepo,
                st.(patterns := Enter(st.patterns, node.info, dir, inRepo)))
  }

  function ScanEntries(fn: Fnmatch, names: seq<string>, order: Listing, dir: string, node: Node, inRepo: bool, st: ScanState): (nat, ScanState)
    requires node.Dir?
    decreases node, 0, |names|
  {
    if names == [] then (0, st) else
    var (total, st1) := ScanEntries(fn, names[..|names| - 1], order, dir, node, inRepo, st);
    var name := names[|names| - 1];
    if DotName(name) || name !in node.entries then (total, st1) else
    var (size, st2) := ScanEntry(fn, order, Join(dir, name), node.entries[name], inRepo, st1);
    (total + size, st2)
  }

  function ScanEntry(fn: Fnmatch, order: Listing, path: string, child: Node, inRepo: bool, st: ScanState): (nat, ScanState)
    decreases child, 2, 0
  {
    if child.Vanished? then (0, st) else
    var ignored := inRepo && Decide(fn, st.patterns, path, child.Dir?);
    var st1 := if inRepo then st.(log := st.log + [Decision(path, child.Dir?, ignored)]) else st;
    if ignored then (0, st1) else
    match child
    case Dir(_, _) => ScanDir(fn, order, path, child, inRepo, st1)
    case Regular(size, lines) => (size, st1.(files := Store(st1.files, FileEntry(path, size, lines))))
    case _ => (0, st1)
  }

  // ----- The scoped scan -----

  /** What a scan keeps and decides, and the patterns it meets on its way. */
  datatype Outcome = Outcome(kept: seq<FileEntry>, log: seq<Decision>, met: seq<IgnorePattern>)

  function Both(a: Outcome, b: Outcome): Outcome
  {
    Outcome(a.kept + b.kept, a.log + b.log, a.met + b.met)
  }

  /** The patterns a directory brings with it. */
  function OwnPatterns(info: DirInfo, dir: string, inRepo: bool): (own: seq<IgnorePattern>)
    ensures forall p | p in own :: p.baseDir == dir
  {
    if info.isRepo then PatternsIn(DirLines(info), dir) + [IgnorePattern(".git", false, true, dir)]
    else if inRepo then PatternsIn(DirLines(info), dir)
    else []
  }

  /** The patterns in force in a directory, given those in force around it. */
  function Scope(scope: seq<IgnorePattern>, info: DirInfo, dir: string, inRepo: bool): seq<IgnorePattern>
  {
    scope + OwnPatterns(info, dir, inRepo)
  }

  /** Every directory sees the patterns of its own ancestors and no others. */
  function ScopedDir(fn: Fnmatch, order: Listing, dir: string, node: Node, inRepo: bool, scope: seq<IgnorePattern>): Outcome
    requires node.Dir?
    decreases node, 1, 0
  {
    if !node.info.opens then Outcome([], [], []) else
    var within := ScopedEntries(fn, order(dir), order, dir, node, inRepo || node.info.isRepo, Scope(scope, node.info, dir, inRepo));
    within.(met := OwnPatterns(node.info, dir, inRepo) + within.met)
  }

  function ScopedEntries(fn: Fnmatch, names: seq<string>, order: Listing, dir: string, node: Node, inRepo: bool, scope: seq<IgnorePattern>): Outcome
    requires node.Dir?
    decreases node, 0, |names|
  {
    if names == [] then Outcome([], [], []) else
    var before := ScopedEntries(fn, names[..|names| - 1], order, dir, node, inRepo, scope);
    var name := names[|names| - 1];
    if DotName(name) || name !in node.entries then before
    else Both(before, ScopedEntry(fn, order, Join(dir, name), node.entries[name], inRepo, scope))
  }

  function ScopedEntry(fn: Fnmatch, order: Listing, path: string, child: Node, inRepo: bool, scope: seq<IgnorePattern>): Outcome
    decreases child, 2, 0
  {
    if child.Vanished? then Outcome([], [], []) else
    var ignored := inRepo && Decide(fn, scope, path, child.Dir?);
    var log := if inRepo then [Decision(path, child.Dir?, ignored)] else [];
    if ignored then Outcome([], log, []) else
    match child
    case Dir(_, _) => Both(Outcome([], log, []), ScopedDir(fn, order, path, child, inRepo, scope))
    case Regular(size, lines) => Outcome([FileEntry(path, size, lines)], log, [])
    case _ => Outcome([], log, [])
  }

  function Sum(files: seq<FileEntry>): nat
  {
    if files == [] then 0 else Sum(files[..|files| - 1]) + files[|files| - 1].size
  }

  function StoreAll(files: seq<FileEntry>, more: seq<FileEntry>): seq<FileEntry>
  {
    if more == [] then files else Store(StoreAll(files, more[..|more| - 1]), more[|more| - 1])
  }

  function FirstOf(files: seq<FileEntry>, n: nat): seq<FileEntry>
  {
    if |files| <= n then files else files[..n]
  }

  lemma {:induction false} SumAppend(a: seq<FileEntry>, b: seq<FileEntry>)
    ensures Sum(a + b) == Sum(a) + Sum(b)
  {
    if b == [] {
      assert a + b == a;
    } else {
      SumAppend(a, b[..|b| - 1]);
      assert (a + b)[..|a + b| - 1] == a + b[..|b| - 1];
    }
  }

  lemma {:induction false} StoreAllAppend(files: seq<FileEntry>, a: seq<FileEntry>, b: seq<FileEntry>)
    ensures StoreAll(files, a + b) == StoreAll(StoreAll(files, a), b)
  {
    if b == [] {
      assert a + b == a;
    } else {
      StoreAllAppend(files, a, b[..|b| - 1]);
      assert (a + b)[..|a + b| - 1] == a + b[..|b| - 1];
    }
  }

  /** As many as there is room for, 10000 in all. */
  lemma {:induction false} StoreAllRoom(files: seq<FileEntry>, more: seq<FileEntry>)
    requires |files| <= 10000
    ensures StoreAll(files, more) == files + FirstOf(more, 10000 - |files|)
  {
    if more != [] {
      StoreAllRoom(files, more[..|more| - 1]);
    } else {
      assert files + [] == files;
    }
  }

  // ----- Paths -----

  lemma BelowTransitive(a: string, b: string, c: string)
    requires Below(a, b) && Below(b, c)
    ensures Below(a, c)
  {
    assert a[..|b|] == b && b[..|c|] == c;
    assert a[..|c|] == c;
  }

  lemma BelowEntry(dir: string, name: string)
    ensures Below(Join(dir, name), dir) && Join(dir, name) != "."
  {
    assert Join(dir, name)[..|dir|] == dir && Join(dir, name)[|dir|] == '/';
  }

  lemma LongerSibling(q: string, dir: string, x: string, y: string)
    requires Below(q, Join(dir, x)) && Below(q, Join(dir, y))
    ensures |x| < |y| ==> '/' in y
    ensures |x| == |y| ==> x == y
  {
    var n := |dir| + 1;
    assert q[..n + |x|] == Join(dir, x) && q[..n + |y|] == Join(dir, y);
    assert q[n..n + |x|] == x by { assert Join(dir, x)[n..] == x; }
    assert q[n..n + |y|] == y by { assert Join(dir, y)[n..] == y; }
    if |x| < |y| {
      assert q[n + |x|] == y[|x|];
    }
  }

  /** Nothing lies below two different entries of a directory. */
  lemma SiblingsApart(q: string, dir: string, x: string, y: string)
    requires '/' !in x && '/' !in y
    requires Below(q, Join(dir, x)) && Below(q, Join(dir, y))
    ensures x == y
  {
    LongerSibling(q, dir, x, y);
    LongerSibling(q, dir, y, x);
  }

  lemma BelowEntryHasSlash(b: string, dir: string, n: string)
    requires Below(b, Join(dir, n))
    ensures b != "."
  {
    assert b[|dir|] == Join(dir, n)[|dir|] == '/';
    assert '/' in b;
  }

  // ----- The two scans agree -----

  ghost predicate SameBelow(fn: Fnmatch, ps: seq<IgnorePattern>, scope: seq<IgnorePattern>, dir: string)
  {
    forall q, isDir | Below(q, dir) :: Decide(fn, ps, q, isDir) == Decide(fn, scope, q, isDir)
  }

  /** The patterns `more` belong to directories at or below `dir`. */
  ghost predicate FromBelow(more: seq<IgnorePattern>, dir: string)
  {
    forall p | p in more :: Below(p.baseDir, dir)
  }

  lemma SameBelowGrows(fn: Fnmatch, ps: seq<IgnorePattern>, scope: seq<IgnorePattern>, dir: string, more: seq<IgnorePattern>)
    requires SameBelow(fn, ps, scope, dir)
    ensures SameBelow(fn, ps + more, scope + more, dir)
  {
    forall q, isDir | Below(q, dir)
      ensures Decide(fn, ps + more, q, isDir) == Decide(fn, scope + more, q, isDir)
    {
      DecideAppend(fn, false, ps, more, q, isDir);
      DecideAppend(fn, false, scope, more, q, isDir);
      assert Decide(fn, ps, q, isDir) == Decide(fn, scope, q, isDir);
    }
  }

  /** Patterns that belong to other entries of a directory do not touch what lies below this one. */
  ghost predicate FromOthers(more: seq<IgnorePattern>, dir: string, names: seq<string>)
  {
    forall p | p in more :: exists n :: n in names && '/' !in n && Below(p.baseDir, Join(dir, n))
  }

  lemma SiblingPatternsMiss(p: IgnorePattern, dir: string, names: seq<string>, name: string, q: string)
    requires exists n :: n in names && '/' !in n && Below(p.baseDir, Join(dir, n))
    requires name !in names && '/' !in name && Below(q, Join(dir, name))
    ensures !PathIsUnderDir(q, p.baseDir)
  {
    var n :| n in names && '/' !in n && Below(p.baseDir, Join(dir, n));
    if Below(q, p.baseDir) {
      BelowTransitive(q, p.baseDir, Join(dir, n));
      SiblingsApart(q, dir, n, name);
    }
    BelowEntryHasSlash(p.baseDir, dir, n);
  }

  lemma SameBelowEntry(fn: Fnmatch, ps: seq<IgnorePattern>, more: seq<IgnorePattern>, scope: seq<IgnorePattern>,
                       dir: string, names: seq<string>, name: string)
    requires SameBelow(fn, ps, scope, dir)
    requires FromOthers(more, dir, names) && name !in names && '/' !in name
    ensures SameBelow(fn, ps + more, scope, Join(dir, name))
  {
    forall q, isDir | Below(q, Join(dir, name))
      ensures Decide(fn, ps + more, q, isDir) == Decide(fn, scope, q, isDir)
    {
      forall p | p in more
        ensures !PathIsUnderDir(q, p.baseDir)
      {
        SiblingPatternsMiss(p, dir, names, name, q);
      }
      DecideAppend(fn, false, ps, more, q, isDir);
      MissesDoNotMatter(fn, Decide(fn, ps, q, isDir), more, q, isDir);
      BelowEntry(dir, name);
      BelowTransitive(q, Join(dir, name), dir);
    }
  }

  /** The result of the global scan is that of the scoped one, and every pattern met was appended. */
  ghost predicate Agrees(total: nat, st: ScanState, st': ScanState, sc: Outcome)
  {
    && total == Sum(sc.kept)
    && st'.files == StoreAll(st.files, sc.kept)
    && st'.log == st.log + sc.log
    && st'.patterns == st.patterns + sc.met
  }

  /** Entering a directory appends its patterns as far as there is room. */
  lemma EnterAppends(ps: seq<IgnorePattern>, info: DirInfo, dir: string, inRepo: bool)
    requires |ps| <= MAX_IGNORE
    ensures var own := OwnPatterns(info, dir, inRepo);
            && |Enter(ps, info, dir, inRepo)| <= MAX_IGNORE
            && (|ps| + |own| <= MAX_IGNORE ==> Enter(ps, info, dir, inRepo) == ps + own)
  {
    AddLinesAppends(ps, DirLines(info), dir);
    var listed := PatternsIn(DirLines(info), dir);
    if info.isRepo {
      var git := IgnorePattern(".git", false, true, dir);
      assert ParseLine(".git/", dir) == Some(git) by {
        assert SkipBlanks(".git/") == ".git/" && ".git/"[..4] == ".git";
      }
      assert ps + (listed + [git]) == ps + listed + [git];
    } else if !inRepo {
      assert ps + [] == ps;
    }
  }

  lemma FromOthersGrows(more: seq<IgnorePattern>, new_: seq<IgnorePattern>, dir: string, names: seq<string>, name: string)
    requires FromOthers(more, dir, names) && FromBelow(new_, Join(dir, name)) && '/' !in name
    ensures FromOthers(more + new_, dir, names + [name])
  {
    forall p | p in more + new_
      ensures exists n :: n in names + [name] && '/' !in n && Below(p.baseDir, Join(dir, n))
    {
      if p in more {
        var n :| n in names && '/' !in n && Below(p.baseDir, Join(dir, n));
        assert n in names + [name];
      } else {
        assert name in names + [name];
      }
    }
  }

  lemma FromOthersBelow(more: seq<IgnorePattern>, dir: string, names: seq<string>)
    requires FromOthers(more, dir, names)
    ensures FromBelow(more, dir)
  {
    forall p | p in more
      ensures Below(p.baseDir, dir)
    {
      var n :| n in names && '/' !in n && Below(p.baseDir, Join(dir, n));
      BelowEntry(dir, n);
      BelowTransitive(p.baseDir, Join(dir, n), dir);
    }
  }

  lemma AgreesThen(t1: nat, st: ScanState, st1: ScanState, a: Outcome, t2: nat, st2: ScanState, b: Outcome)
    requires Agrees(t1, st, st1, a) && Agrees(t2, st1, st2, b)
    ensures Agrees(t1 + t2, st, st2, Both(a, b))
  {
    SumAppend(a.kept, b.kept);
    StoreAllAppend(st.files, a.kept, b.kept);
    assert st.log + (a.log + b.log) == (st.log + a.log) + b.log;
    assert st.patterns + (a.met + b.met) == (st.patterns + a.met) + b.met;
  }

  lemma {:induction false} ScanDirAgrees(fn: Fnmatch, order: Listing, dir: string, node: Node, inRepo: bool, st: ScanState, scope: seq<IgnorePattern>)
    requires node.Dir? && WellListed(order, dir, node)
    requires SameBelow(fn, st.patterns, scope, dir)
    requires |st.patterns| + |ScopedDir(fn, order, dir, node, inRepo, scope).met| <= MAX_IGNORE
    ensures var (total, st') := ScanDir(fn, order, dir, node, inRepo, st);
            var scoped := ScopedDir(fn, order, dir, node, inRepo, scope);
            Agrees(total, st, st', scoped) && FromBelow(scoped.met, dir)
    decreases node, 1, 0
  {
    hide WellListed, SameBelow, Enter, OwnPatterns, ScanEntries, ScopedEntries, FromOthers;
    if node.info.opens {
      var own, inside := OwnPatterns(node.info, dir, inRepo), inRepo || node.info.isRepo;
      var within := ScopedEntries(fn, order(dir), order, dir, node, inside, scope + own);
      assert ScopedDir(fn, order, dir, node, inRepo, scope) == within.(met := own + within.met);
      var st1 := st.(patterns := Enter(st.patterns, node.info, dir, inRepo));
      EnterAppends(st.patterns, node.info, dir, inRepo);
      assert st1.patterns == st.patterns + own;
      SameBelowGrows(fn, st.patterns, scope, dir, own);
      ScanEntriesAgree(fn, order(dir), order, dir, node, inside, st1, scope + own);
      FromOthersBelow(within.met, dir, order(dir));
      assert st.patterns + (own + within.met) == (st.patterns + own) + within.met;
    }
  }

  lemma NextName(order: Listing, dir: string, node: Node, before: seq<string>, name: string)
    requires node.Dir? && WellListed(order, dir, node) && before + [name] <= order(dir) && name in node.entries
    ensures '/' !in name && WellListed(order, Join(dir, name), node.entries[name]) && name !in before
  {
    assert order(dir)[|before|] == name;
    assert forall j | 0 <= j < |before| :: order(dir)[j] == before[j];
  }

  lemma {:induction false} ScanEntriesAgree(fn: Fnmatch, names: seq<string>, order: Listing, dir: string, node: Node, inRepo: bool,
                                            st: ScanState, scope: seq<IgnorePattern>)
    requires node.Dir? && WellListed(order, dir, node) && names <= order(dir)
    requires SameBelow(fn, st.patterns, scope, dir)
    requires |st.patterns| + |ScopedEntries(fn, names, order, dir, node, inRepo, scope).met| <= MAX_IGNORE
    ensures var (total, st') := ScanEntries(fn, names, order, dir, node, inRepo, st);
            var scoped := ScopedEntries(fn, names, order, dir, node, inRepo, scope);
            Agrees(total, st, st', scoped) && FromOthers(scoped.met, dir, names)
    decreases node, 0, |names|
  {
    hide SameBelow, FromBelow, ScanEntry, ScopedEntry, WellListed;
    if names != [] {
      var before, name := names[..|names| - 1], names[|names| - 1];
      assert names == before + [name];
      var (t1, st1) := ScanEntries(fn, before, order, dir, node, inRepo, st);
      var a := ScopedEntries(fn, before, order, dir, node, inRepo, scope);
      ScanEntriesAgree(fn, before, order, dir, node, inRepo, st, scope);
      if !DotName(name) && name in node.entries {
        NextName(order, dir, node, before, name);
        var path, child := Join(dir, name), node.entries[name];
        SameBelowEntry(fn, st.patterns, a.met, scope, dir, before, name);
        ScanEntryAgrees(fn, order, path, child, inRepo, st1, scope);
        var (t2, st2) := ScanEntry(fn, order, path, child, inRepo, st1);
        var b := ScopedEntry(fn, order, path, child, inRepo, scope);
        AgreesThen(t1, st, st1, a, t2, st2, b);
        FromOthersGrows(a.met, b.met, dir, before, name);
      }
    }
  }

  lemma {:induction false} ScanEntryAgrees(fn: Fnmatch, order: Listing, path: string, child: Node, inRepo: bool,
                                           st: ScanState, scope: seq<IgnorePattern>)
    requires WellListed(order, path, child)
    requires SameBelow(fn, st.patterns, scope, path)
    requires |st.patterns| + |ScopedEntry(fn, order, path, child, inRepo, scope).met| <= MAX_IGNORE
    ensures var (size, st') := ScanEntry(fn, order, path, child, inRepo, st);
            var scoped := ScopedEntry(fn, order, path, child, inRepo, scope);
            Agrees(size, st, st', scoped) && FromBelow(scoped.met, path)
    decreases child, 2, 0
  {
    if !child.Vanished? {
      var ignored := inRepo && Decide(fn, st.patterns, path, child.Dir?);
      assert Below(path, path);
      assert ignored == (inRepo && Decide(fn, scope, path, child.Dir?));
      var st1 := if inRepo then st.(log := st.log + [Decision(path, child.Dir?, ignored)]) else st;
      var log := if inRepo then [Decision(path, child.Dir?, ignored)] else [];
      assert Agrees(0, st, st1, Outcome([], log, []));
      if !ignored {
        match child
        case Dir(_, _) =>
          ScanDirAgrees(fn, order, path, child, inRepo, st1, scope);
          var (size, st') := ScanDir(fn, order, path, child, inRepo, st1);
          AgreesThen(0, st, st1, Outcome([], log, []), size, st', ScopedDir(fn, order, path, child, inRepo, scope));
        case Regular(size, lines) =>
          var e := FileEntry(path, size, lines);
          assert [e][..0] == [];
          assert Sum([e]) == size && StoreAll(st.files, [e]) == Store(st.files, e);
        case _ =>
      }
    }
  }

  // ----- The table never overflows -----

  lemma {:induction false} DirBounded(fn: Fnmatch, order: Listing, dir: string, node: Node, inRepo: bool, st: ScanState)
    requires node.Dir? && |st.patterns| <= MAX_IGNORE
    ensures |ScanDir(fn, order, dir, node, inRepo, st).1.patterns| <= MAX_IGNORE
    decreases node, 1, 0
  {
    EnterAppends(st.patterns, node.info, dir, inRepo);
    if node.info.opens {
      EntriesBounded(fn, order(dir), order, dir, node, inRepo || node.info.isRepo,
                     st.(patterns := Enter(st.patterns, node.info, dir, inRepo)));
    }
  }

  lemma {:induction false} EntriesBounded(fn: Fnmatch, names: seq<string>, order: Listing, dir: string, node: Node, inRepo: bool, st: ScanState)
    requires node.Dir? && |st.patterns| <= MAX_IGNORE
    ensures |ScanEntries(fn, names, order, dir, node, inRepo, st).1.patterns| <= MAX_IGNORE
    decreases node, 0, |names|
  {
    if names != [] {
      var st1 := ScanEntries(fn, names[..|names| - 1], order, dir, node, inRepo, st).1;
      EntriesBounded(fn, names[..|names| - 1], order, dir, node, inRepo, st);
      var name := names[|names| - 1];
      if name in node.entries {
        EntryBounded(fn, order, Join(dir, name), node.entries[name], inRepo, st1);
      }
    }
  }

  lemma {:induction false} EntryBounded(fn: Fnmatch, order: Listing, path: string, child: Node, inRepo: bool, st: ScanState)
    requires |st.patterns| <= MAX_IGNORE
    ensures |ScanEntry(fn, order, path, child, inRepo, st).1.patterns| <= MAX_IGNORE
    decreases child, 2, 0
  {
    var ignored := inRepo && Decide(fn, st.patterns, path, child.Dir?);
    var st1 := if inRepo then st.(log := st.log + [Decision(path, child.Dir?, ignored)]) else st;
    if child.Dir? && !ignored {
      DirBounded(fn, order, path, child, inRepo, st1);
    }
  }

  /** There is room for the patterns at the start and for all that the scoped scan meets. */
  ghost predicate PatternsFit(fn: Fnmatch, order: Listing, dir: string, node: Node, inRepo: bool, start: seq<IgnorePattern>)
    requires node.Dir?
  {
    |start| + |ScopedDir(fn, order, dir, node, inRepo, start).met| <= 5000
  }

  /** From any starting list whose patterns fit the table, the scan with its never-popped global list
      decides, keeps and sums exactly what a scan does in which each directory sees only its
      ancestors' patterns. */
  lemma GlobalListIsScoped(fn: Fnmatch, order: Listing, dir: string, node: Node, inRepo: bool, st: ScanState)
    requires node.Dir? && WellListed(order, dir, node) && PatternsFit(fn, order, dir, node, inRepo, st.patterns)
    ensures var (total, st') := ScanDir(fn, order, dir, node, inRepo, st);
            var scoped := ScopedDir(fn, order, dir, node, inRepo, st.patterns);
            && st'.log == st.log + scoped.log
            && total == Sum(scoped.kept)
            && (|st.files| <= 10000 ==> st'.files == st.files + FirstOf(scoped.kept, 10000 - |st.files|))
            && st'.patterns == st.patterns + scoped.met
  {
    ScanDirAgrees(fn, order, dir, node, inRepo, st, st.patterns);
    if |st.files| <= 10000 {
      StoreAllRoom(st.files, ScopedDir(fn, order, dir, node, inRepo, st.patterns).kept);
    }
  }

  /** The scan ends with every pattern met, so that none was dropped, exactly when they all fit. */
  lemma NoPatternDroppedIff(fn: Fnmatch, order: Listing, dir: string, node: Node, inRepo: bool, st: ScanState)
    requires node.Dir? && WellListed(order, dir, node) && |st.patterns| <= MAX_IGNORE
    ensures ScanDir(fn, order, dir, node, inRepo, st).1.patterns
              == st.patterns + ScopedDir(fn, order, dir, node, inRepo, st.patterns).met
       <==> PatternsFit(fn, order, dir, node, inRepo, st.patterns)
  {
    DirBounded(fn, order, dir, node, inRepo, st);
    if PatternsFit(fn, order, dir, node, inRepo, st.patterns) {
      GlobalListIsScoped(fn, order, dir, node, inRepo, st);
    }
  }

  // ----- A full table -----

  /** Names match patterns that spell them out. */
  predicate Spelled(pattern: string, name: string, pathname: bool)
  {
    pattern == name
  }

  const X_INFO := DirInfo(true, true, Some("x"))

  lemma XIsOne()
    ensures OwnPatterns(X_INFO, "/d", false) == [IgnorePattern("x", false, false, "/d"), IgnorePattern(".git", false, true, "/d")]
  {
    var x := IgnorePattern("x", false, false, "/d");
    assert "x"[..1] == "x" && "x"[1..] == "" && Lines("x") == ["x"] && ["x"][..0] == [];
    assert UpToLineEnd("x") == "x" && SkipBlanks("x") == "x" && Clean("x") == "x";
    assert PatternsIn([], "/d") == [] && PatternsIn(["x"], "/d") == [x];
    assert [x] + [IgnorePattern(".git", false, true, "/d")] == [x, IgnorePattern(".git", false, true, "/d")];
  }

  lemma XHits()
    ensures Hits(Spelled, IgnorePattern("x", false, false, "/d"), "/d/x", false)
  {
    XLiesBelow();
    var p := IgnorePattern("x", false, false, "/d");
    hide SuffixMatches, RelPath, PathIsUnderDir;
    assert '/' !in p.pattern;
    assert BaseName("x") == "x" by { assert "x"[..0] == "" && BaseName("") == ""; }
    assert PathMatches(Spelled, p, "x", false);
  }

  lemma XLiesBelow()
    ensures PathIsUnderDir("/d/x", "/d") && RelPath("/d/x", "/d") == "x"
  {
    assert "/d/x"[..2] == "/d" && "/d/x"[3..] == "x";
  }

  lemma DirectoriesOnly(fn: Fnmatch, p: IgnorePattern, path: string)
    requires p.isDirectory
    ensures !Hits(fn, p, path, false)
  {
    hide SuffixMatches, RelPath, PathIsUnderDir;
  }

  lemma XIsIgnored(around: seq<IgnorePattern>)
    ensures Decide(Spelled, Scope(around, X_INFO, "/d", false), "/d/x", false)
  {
    var x, git := IgnorePattern("x", false, false, "/d"), IgnorePattern(".git", false, true, "/d");
    XIsOne();
    XHits();
    DirectoriesOnly(Spelled, git, "/d/x");
    hide Hits, OwnPatterns;
    var ps := around + [x, git];
    assert Scope(around, X_INFO, "/d", false) == ps;
    assert ps[|ps| - 1] == git && ps[..|ps| - 1] == around + [x] && (around + [x])[|around|] == x;
    assert DecideFrom(Spelled, false, around + [x], "/d/x", false);
  }

  lemma FullTableDrops(full: seq<IgnorePattern>, info: DirInfo, dir: string)
    requires |full| == MAX_IGNORE
    ensures Enter(full, info, dir, false) == full
  {
    AddLinesAppends(full, DirLines(info), dir);
    assert full + PatternsIn(DirLines(info), dir)[..0] == full && full + [] == full;
  }

  lemma OneFile(order: Listing, node: Node, st: ScanState, scope: seq<IgnorePattern>, size: nat)
    requires order("/d") == ["x"] && node == Dir(X_INFO, map["x" := Regular(size, 0)])
    requires !Decide(Spelled, st.patterns, "/d/x", false) && Decide(Spelled, scope, "/d/x", false)
    ensures ScanEntries(Spelled, ["x"], order, "/d", node, true, st).0 == size
    ensures ScopedEntries(Spelled, ["x"], order, "/d", node, true, scope).kept == []
  {
    hide Decide;
    assert Join("/d", "x") == "/d/x" && ["x"][..0] == [];
    assert ScanEntry(Spelled, order, "/d/x", Regular(size, 0), true, st).0 == size;
    assert ScopedEntry(Spelled, order, "/d/x", Regular(size, 0), true, scope).kept == [];
    assert ScanEntries(Spelled, [], order, "/d", node, true, st) == (0, st);
    assert ScopedEntries(Spelled, [], order, "/d", node, true, scope).kept == [];
  }

  lemma XWellListed(order: Listing, node: Node, size: nat)
    requires order("/d") == ["x"] && node == Dir(X_INFO, map["x" := Regular(size, 0)])
    ensures WellListed(order, "/d", node)
  {
  }

  /** With the table full of patterns for other places, the one line of a .gitignore is dropped, and
      the file it names is counted after all. */
  lemma FullTableMiscounts(full: seq<IgnorePattern>, order: Listing, node: Node, size: nat)
    requires |full| == 5000 && forall p | p in full :: !PathIsUnderDir("/d/x", p.baseDir)
    requires order("/d") == ["x"] && node == Dir(X_INFO, map["x" := Regular(size, 0)])
    ensures WellListed(order, "/d", node)
    ensures ScanDir(Spelled, order, "/d", node, false, ScanState(full, [], [])).0 == size
    ensures Sum(ScopedDir(Spelled, order, "/d", node, false, full).kept) == 0
  {
    hide Enter, Scope, ScanEntries, ScopedEntries, DecideFrom, PathIsUnderDir, WellListed;
    XWellListed(order, node, size);
    FullTableDrops(full, X_INFO, "/d");
    MissesDoNotMatter(Spelled, false, full, "/d/x", false);
    XIsIgnored(full);
    OneFile(order, node, ScanState(full, [], []), Scope(full, X_INFO, "/d", false), size);
  }
}
