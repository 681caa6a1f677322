/** Ignore patterns: how lines become patterns and how a path is decided. */
module Gitignore {
  import opened Collections

  const MAX_IGNORE: nat := 5000
  const LINE_BUFFER: nat := 512

  datatype IgnorePattern = IgnorePattern(pattern: string, isNegation: bool, isDirectory: bool, baseDir: string)

  /** fnmatch(pattern, string), with or without FNM_PATHNAME. */
  type Fnmatch = (string, string, bool) -> bool

  // ----- Strings -----

  predicate Blank(c: char)
  {
    c == ' ' || c == '\t'
  }

  function SkipBlanks(s: string): (r: string)
    ensures |r| <= |s|
  {
    if s != "" && Blank(s[0]) then SkipBlanks(s[1..]) else s
  }

  /** What strcspn(s, "\r\n") leaves. */
  function UpToLineEnd(s: string): string
  {
    if s == "" || s[0] == '\r' || s[0] == '\n' then "" else [s[0]] + UpToLineEnd(s[1..])
  }

  /** The part after the first slash, if there is one. */
  function AfterSlash(s: string): (r: Option<string>)
    ensures r.Some? ==> |r.value| < |s|
    ensures r.Some? <==> '/' in s
  {
    if s == "" then None else if s[0] == '/' then Some(s[1..]) else AfterSlash(s[1..])
  }

  /** The part after the last slash, or everything. */
  function BaseName(s: string): string
  {
    if s == "" then "" else if s[|s| - 1] == '/' then "" else BaseName(s[..|s| - 1]) + [s[|s| - 1]]
  }

  function WithoutDotSlash(s: string): string
  {
    if |s| >= 2 && s[0] == '.' && s[1] == '/' then s[2..] else s
  }

  // ----- Matching -----

  /** Does the pattern match the rest of a path from some component on? */
  predicate SuffixMatches(fn: Fnmatch, pattern: string, rest: string)
    decreases |rest|
  {
    rest != "" &&
    (fn(pattern, rest, true) ||
     (AfterSlash(rest).Some? && SuffixMatches(fn, pattern, AfterSlash(rest).value)))
  }

  predicate PathMatches(fn: Fnmatch, p: IgnorePattern, path: string, checkDir: bool)
  {
    if p.isDirectory && !checkDir then false
    else if '/' in p.pattern then fn(p.pattern, WithoutDotSlash(path), true)
    else fn(p.pattern, BaseName(path), false) || SuffixMatches(fn, p.pattern, WithoutDotSlash(path))
  }

  /** `path` is `dir` or lies below it. */
  predicate Below(path: string, dir: string)
  {
    dir <= path && (|path| == |dir| || path[|dir|] == '/')
  }

  predicate PathIsUnderDir(path: string, dir: string)
  {
    dir == "." || Below(path, dir)
  }

  function RelPath(path: string, baseDir: string): string
  {
    if baseDir == "." || !Below(path, baseDir) then path
    else if |path| == |baseDir| then "."
    else path[|baseDir| + 1..]
  }

  /** Does the pattern apply to the path and match it? */
  predicate Hits(fn: Fnmatch, p: IgnorePattern, path: string, isDir: bool)
  {
    PathIsUnderDir(path, p.baseDir) && PathMatches(fn, p, RelPath(path, p.baseDir), isDir)
  }

  /** The decision after the patterns `ps`, when it was `ignored` before them. */
  predicate DecideFrom(fn: Fnmatch, ignored: bool, ps: seq<IgnorePattern>, path: string, isDir: bool)
  {
    if ps == [] then ignored
    else if Hits(fn, ps[|ps| - 1], path, isDir) then !ps[|ps| - 1].isNegation
    else DecideFrom(fn, ignored, ps[..|ps| - 1], path, isDir)
  }

  predicate Decide(fn: Fnmatch, ps: seq<IgnorePattern>, path: string, isDir: bool)
  {
    DecideFrom(fn, false, ps, path, isDir)
  }

  /** Pattern `i` hits, is no negation, and no later pattern hits. */
  ghost predicate Excludes(fn: Fnmatch, ps: seq<IgnorePattern>, path: string, isDir: bool, i: nat)
  {
    && i < |ps| && Hits(fn, ps[i], path, isDir) && !ps[i].isNegation
    && forall j | i < j < |ps| :: !Hits(fn, ps[j], path, isDir)
  }

  /** The last pattern that hits wins: a path is ignored exactly when that one is no negation. */
  lemma {:induction false} LastHitWins(fn: Fnmatch, ps: seq<IgnorePattern>, path: string, isDir: bool)
    ensures Decide(fn, ps, path, isDir) <==> exists i: nat :: Excludes(fn, ps, path, isDir, i)
  {
    hide Hits;
    if ps != [] {
      var before, n := ps[..|ps| - 1], |ps| - 1;
      LastHitWins(fn, before, path, isDir);
      if Hits(fn, ps[n], path, isDir) {
        assert Excludes(fn, ps, path, isDir, n) <==> !ps[n].isNegation;
      } else {
        forall i: nat
          ensures Excludes(fn, ps, path, isDir, i) <==> Excludes(fn, before, path, isDir, i)
        {
          ExcludesStays(fn, ps, path, isDir, i);
        }
      }
    }
  }

  lemma ExcludesStays(fn: Fnmatch, ps: seq<IgnorePattern>, path: string, isDir: bool, i: nat)
    requires ps != [] && !Hits(fn, ps[|ps| - 1], path, isDir)
    ensures Excludes(fn, ps, path, isDir, i) <==> Excludes(fn, ps[..|ps| - 1], path, isDir, i)
  {
    hide Hits;
    var before := ps[..|ps| - 1];
    assert forall j | 0 <= j < |before| :: before[j] == ps[j];
  }

  lemma {:induction false} DecideAppend(fn: Fnmatch, ignored: bool, a: seq<IgnorePattern>, b: seq<IgnorePattern>, path: string, isDir: bool)
    ensures DecideFrom(fn, ignored, a + b, path, isDir)
         == DecideFrom(fn, DecideFrom(fn, ignored, a, path, isDir), b, path, isDir)
  {
    if b == [] {
      assert a + b == a;
    } else {
      DecideAppend(fn, ignored, a, b[..|b| - 1], path, isDir);
      assert (a + b)[..|a + b| - 1] == a + b[..|b| - 1];
    }
  }

  lemma {:induction false} MissesDoNotMatter(fn: Fnmatch, ignored: bool, ps: seq<IgnorePattern>, path: string, isDir: bool)
    requires forall p | p in ps :: !PathIsUnderDir(path, p.baseDir)
    ensures DecideFrom(fn, ignored, ps, path, isDir) == ignored
  {
    if ps != [] {
      MissesDoNotMatter(fn, ignored, ps[..|ps| - 1], path, isDir);
    }
  }

  // ----- From lines to patterns -----

  /** The pattern a line stands for, if any. */
  function ParseLine(line: string, baseDir: string): (r: Option<IgnorePattern>)
    ensures r.Some? ==> r.value.baseDir == baseDir
  {
    var isNegation := line != "" && line[0] == '!';
    var pattern := SkipBlanks(if isNegation then line[1..] else line);
    if pattern == "" then None else
    var isDirectory := pattern[|pattern| - 1] == '/';
    Some(IgnorePattern(if isDirectory then pattern[..|pattern| - 1] else pattern, isNegation, isDirectory, baseDir))
  }

  function Add(ps: seq<IgnorePattern>, line: string, baseDir: string): seq<IgnorePattern>
  {
    if |ps| >= MAX_IGNORE then ps else
    match ParseLine(line, baseDir)
    case None => ps
    case Some(p) => ps + [p]
  }

  /** One fgets into the line buffer: up to and including a newline, at most 511 characters. */
  function FirstRead(content: string, room: nat): (n: nat)
    requires content != "" && room > 0
    ensures 0 < n <= |content|
  {
    if content[0] == '\n' || room == 1 || |content| == 1 then 1 else 1 + FirstRead(content[1..], room - 1)
  }

  function Lines(content: string): seq<string>
    decreases |content|
  {
    if content == "" then [] else
    var n := FirstRead(content, LINE_BUFFER - 1);
    [content[..n]] + Lines(content[n..])
  }

  function Clean(line: string): string
  {
    SkipBlanks(UpToLineEnd(line))
  }

  predicate Counts(line: string)
  {
    Clean(line) != "" && Clean(line)[0] != '#'
  }

  function AddLines(ps: seq<IgnorePattern>, lines: seq<string>, baseDir: string): seq<IgnorePattern>
  {
    if lines == [] then ps else
    var before, line := AddLines(ps, lines[..|lines| - 1], baseDir), lines[|lines| - 1];
    if Counts(line) then Add(before, Clean(line), baseDir) else before
  }

  /** The patterns of a .gitignore, when there is room for all of them. */
  function PatternsIn(lines: seq<string>, baseDir: string): (ps: seq<IgnorePattern>)
    ensures forall p | p in ps :: p.baseDir == baseDir
  {
    if lines == [] then [] else
    var before, line := PatternsIn(lines[..|lines| - 1], baseDir), lines[|lines| - 1];
    if !Counts(line) then before else
    match ParseLine(Clean(line), baseDir)
    case None => before
    case Some(p) => before + [p]
  }

  /** Adding lines appends their patterns, in order, until the table is full. */
  lemma {:induction false} AddLinesAppends(ps: seq<IgnorePattern>, lines: seq<string>, baseDir: string)
    requires |ps| <= MAX_IGNORE
    ensures var all, room := PatternsIn(lines, baseDir), MAX_IGNORE - |ps|;
            AddLines(ps, lines, baseDir) == ps + if |all| <= room then all else all[..room]
  {
    if lines != [] {
      AddLinesAppends(ps, lines[..|lines| - 1], baseDir);
    } else {
      assert ps + [] == ps;
    }
  }
}
