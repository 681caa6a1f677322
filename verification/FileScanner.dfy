/** The scanner as it runs: global arrays that only grow, loops and a recursive scan. */
module FileScanner {
  import opened Collections
  import opened Gitignore
  import opened DirectoryScan

  method TrimBlanks(s: string) returns (r: string)
    ensures r == SkipBlanks(s)
  {
    var p := 0;
    while p < |s| && (s[p] == ' ' || s[p] == '\t')
      invariant p <= |s|
      invariant SkipBlanks(s) == SkipBlanks(s[p..])
    {
      assert s[p..][1..] == s[p + 1..];
      p := p + 1;
    }
    r := s[p..];
  }

  method CutLine(s: string) returns (r: string)
    ensures r == UpToLineEnd(s)
  {
    var n := 0;
    while n < |s| && s[n] != '\r' && s[n] != '\n'
      invariant n <= |s|
      invariant UpToLineEnd(s) == s[..n] + UpToLineEnd(s[n..])
    {
      assert s[n..][1..] == s[n + 1..] && s[..n + 1] == s[..n] + [s[n]];
      n := n + 1;
    }
    r := s[..n];
  }

  /** Tries the pattern on the path from every component on. */
  method MatchSuffixes(fn: Fnmatch, pattern: string, path: string) returns (found: bool)
    ensures found == SuffixMatches(fn, pattern, path)
  {
    var p := path;
    while p != ""
      invariant SuffixMatches(fn, pattern, path) == SuffixMatches(fn, pattern, p)
      decreases |p|
    {
      if fn(pattern, p, true) {
        return true;
      }
      var next := AfterSlash(p);
      if next.None? {
        return false;
      }
      p := next.value;
    }
    return false;
  }

  method MatchPath(fn: Fnmatch, p: IgnorePattern, path: string, checkDir: bool) returns (found: bool)
    ensures found == PathMatches(fn, p, path, checkDir)
  {
    if p.isDirectory && !checkDir {
      return false;
    }
    if '/' in p.pattern {
      return fn(p.pattern, WithoutDotSlash(path), true);
    }
    if fn(p.pattern, BaseName(path), false) {
      return true;
    }
    found := MatchSuffixes(fn, p.pattern, WithoutDotSlash(path));
  }

  lemma NoLines(ps: seq<IgnorePattern>, baseDir: string)
    ensures Lines("") == [] && AddLines(ps, [], baseDir) == ps
  {
  }

  lemma NextLine(read: seq<string>, rest: string)
    requires rest != ""
    ensures var n := FirstRead(rest, LINE_BUFFER - 1);
            read + Lines(rest) == (read + [rest[..n]]) + Lines(rest[n..])
  {
  }

  lemma AddLinesSnoc(ps: seq<IgnorePattern>, lines: seq<string>, line: string, baseDir: string)
    ensures var before := AddLines(ps, lines, baseDir);
            AddLines(ps, lines + [line], baseDir) == if Counts(line) then Add(before, Clean(line), baseDir) else before
  {
    assert (lines + [line])[..|lines|] == lines;
  }

  class Scanner {
    const fn: Fnmatch
    const order: Listing
    var ignorePatterns: seq<IgnorePattern>
    var files: seq<FileEntry>
    var decisions: seq<Decision>

    function State(): ScanState
      reads this
    {
      ScanState(ignorePatterns, files, decisions)
    }

    constructor (fn: Fnmatch, order: Listing)
      ensures State() == ScanState([], [], []) && this.fn == fn && this.order == order
    {
      this.fn, this.order := fn, order;
      ignorePatterns, files, decisions := [], [], [];
    }

    method AddPattern(line: string, baseDir: string)
      modifies this`ignorePatterns
      ensures ignorePatterns == Add(old(ignorePatterns), line, baseDir)
    {
      if |ignorePatterns| >= MAX_IGNORE {
        return;
      }
      var isNegation := line != "" && line[0] == '!';
      var pattern := TrimBlanks(if isNegation then line[1..] else line);
      if pattern == "" {
        return;
      }
      var isDirectory := pattern[|pattern| - 1] == '/';
      if isDirectory {
        pattern := pattern[..|pattern| - 1];
      }
      ignorePatterns := ignorePatterns + [IgnorePattern(pattern, isNegation, isDirectory, baseDir)];
    }

    method ReadGitignore(gitignore: Option<string>, baseDir: string)
      modifies this`ignorePatterns
      ensures ignorePatterns == AddLines(old(ignorePatterns), if gitignore.Some? then Lines(gitignore.value) else [], baseDir)
    {
      if gitignore.None? {
        return;
      }
      hide Add, AddLines, Lines, SkipBlanks, UpToLineEnd, FirstRead;
      NoLines(ignorePatterns, baseDir);
      var rest := gitignore.value;
      ghost var read: seq<string> := [];
      while rest != ""
        invariant read + Lines(rest) == Lines(gitignore.value)
        invariant ignorePatterns == AddLines(old(ignorePatterns), read, baseDir)
        decreases |rest|
      {
        var n := FirstRead(rest, LINE_BUFFER - 1);
        var line := CutLine(rest[..n]);
        NextLine(read, rest);
        AddLinesSnoc(old(ignorePatterns), read, rest[..n], baseDir);
        read := read + [rest[..n]];
        rest := rest[n..];
        line := TrimBlanks(line);
        if line != "" && line[0] != '#' {
          AddPattern(line, baseDir);
        }
      }
      assert read == Lines(gitignore.value);
    }

    method ShouldIgnore(path: string, isDir: bool) returns (ignored: bool)
      ensures ignored == Decide(fn, ignorePatterns, path, isDir)
    {
      ignored := false;
      for i := 0 to |ignorePatterns|
        invariant ignored == Decide(fn, ignorePatterns[..i], path, isDir)
      {
        assert ignorePatterns[..i + 1][..i] == ignorePatterns[..i];
        var p := ignorePatterns[i];
        if !PathIsUnderDir(path, p.baseDir) {
          continue;
        }
        var found := MatchPath(fn, p, RelPath(path, p.baseDir), isDir);
        if found {
          ignored := !p.isNegation;
        }
      }
      assert ignorePatterns[..|ignorePatterns|] == ignorePatterns;
    }

    method EnterDir(info: DirInfo, dir: string, inRepo: bool)
      modifies this`ignorePatterns
      ensures ignorePatterns == Enter(old(ignorePatterns), info, dir, inRepo)
    {
      if info.isRepo {
        ReadGitignore(info.gitignore, dir);
        AddPattern(".git/", dir);
      } else if inRepo {
        ReadGitignore(info.gitignore, dir);
      }
    }

    method ScanChild(path: string, child: Node, inRepo: bool) returns (size: nat)
      modifies this
      ensures (size, State()) == ScanEntry(fn, order, path, child, inRepo, old(State()))
      decreases child, 2
    {
      if child.Vanished? {
        return 0;
      }
      if inRepo {
        var ignored := ShouldIgnore(path, child.Dir?);
        decisions := decisions + [Decision(path, child.Dir?, ignored)];
        if ignored {
          return 0;
        }
      }
      size := 0;
      if child.Dir? {
        size := Scan(path, child, inRepo);
      } else if child.Regular? {
        size := child.size;
        if |files| < MAX_FILES {
          files := files + [FileEntry(path, child.size, child.lines)];
        }
      }
    }

    method Scan(dir: string, node: Node, inRepo: bool) returns (totalSize: nat)
      requires node.Dir?
      modifies this
      ensures (totalSize, State()) == ScanDir(fn, order, dir, node, inRepo, old(State()))
      decreases node, 1
    {
      hide ScanEntry, Enter;
      totalSize := 0;
      if !node.info.opens {
        return;
      }
      EnterDir(node.info, dir, inRepo);
      var inside := inRepo || node.info.isRepo;
      ghost var entered := State();
      var names := order(dir);
      for k := 0 to |names|
        invariant (totalSize, State()) == ScanEntries(fn, names[..k], order, dir, node, inside, entered)
      {
        assert names[..k + 1][..k] == names[..k];
        if DotName(names[k]) || names[k] !in node.entries {
          continue;
        }
        var size := ScanChild(Join(dir, names[k]), node.entries[names[k]], inside);
        totalSize := totalSize + size;
      }
      assert names[..|names|] == names;
    }
  }
}
