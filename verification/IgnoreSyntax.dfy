/** What a .gitignore says: its lines, the patterns they stand for, and what a pattern is compared to. */
module IgnoreSyntax {
  import opened Collections
  import opened Gitignore

  // ----- Lines -----

  function Joined(ls: seq<string>): string
  {
    if ls == [] then "" else ls[0] + Joined(ls[1..])
  }

  /** A newline only at the end, and one there unless the file ends. */
  ghost predicate Separated(line: string, atEnd: bool)
  {
    && line != "" && (forall j | 0 <= j < |line| - 1 :: line[j] != '\n')
    && (line[|line| - 1] == '\n' || atEnd)
  }

  /** The same for what one read takes: it may also end after 511 characters. */
  ghost predicate OneRead(line: string, atEnd: bool)
  {
    |line| <= 511 && Separated(line, atEnd || |line| == 511)
  }

  ghost predicate AreSeparated(ls: seq<string>)
  {
    forall k | 0 <= k < |ls| :: Separated(ls[k], k == |ls| - 1)
  }

  ghost predicate AreReads(ls: seq<string>)
  {
    forall k | 0 <= k < |ls| :: OneRead(ls[k], k == |ls| - 1)
  }

  lemma {:induction false} FirstReadIs(content: string, room: nat, n: nat)
    requires 0 < n <= |content| && n <= room
    requires forall j | 0 <= j < n - 1 :: content[j] != '\n'
    requires content[n - 1] == '\n' || n == room || n == |content|
    ensures FirstRead(content, room) == n
  {
    if n > 1 {
      FirstReadIs(content[1..], room - 1, n - 1);
    }
  }

  lemma {:induction false} FirstReadEnds(content: string, room: nat)
    requires content != "" && room > 0
    ensures var n := FirstRead(content, room);
            && n <= room && (forall j | 0 <= j < n - 1 :: content[j] != '\n')
            && (content[n - 1] == '\n' || n == room || n == |content|)
  {
    if !(content[0] == '\n' || room == 1 || |content| == 1) {
      FirstReadEnds(content[1..], room - 1);
      var n := FirstRead(content[1..], room - 1);
      assert forall j | 0 < j < n :: content[j] == content[1..][j - 1];
    }
  }

  lemma {:induction false} LinesAreReads(content: string)
    ensures Joined(Lines(content)) == content && AreReads(Lines(content))
    decreases |content|
  {
    if content != "" {
      var n := FirstRead(content, 511);
      FirstReadEnds(content, 511);
      LinesAreReads(content[n..]);
      var ls, rest := Lines(content), Lines(content[n..]);
      assert ls == [content[..n]] + rest && ls[1..] == rest;
      assert rest == [] ==> n == |content|;
      forall k | 0 <= k < |ls|
        ensures OneRead(ls[k], k == |ls| - 1)
      {
        assert k > 0 ==> ls[k] == rest[k - 1] && OneRead(rest[k - 1], k - 1 == |rest| - 1);
      }
    }
  }

  lemma {:induction false} ReadsAreLines(ls: seq<string>)
    requires AreReads(ls)
    ensures Lines(Joined(ls)) == ls
  {
    if ls != [] {
      var content, n, rest := Joined(ls), |ls[0]|, ls[1..];
      assert OneRead(ls[0], |ls| == 1);
      assert content[..n] == ls[0] && content[n..] == Joined(rest);
      assert rest == [] ==> n == |content|;
      FirstReadIs(content, 511, n);
      forall k | 0 <= k < |rest|
        ensures OneRead(rest[k], k == |rest| - 1)
      {
        assert OneRead(ls[k + 1], k + 1 == |ls| - 1);
      }
      ReadsAreLines(rest);
    }
  }

  /** The lines of a file are the one way to cut it up into reads. */
  lemma LinesIff(content: string, ls: seq<string>)
    ensures ls == Lines(content) <==> Joined(ls) == content && AreReads(ls)
  {
    LinesAreReads(content);
    if Joined(ls) == content && AreReads(ls) {
      ReadsAreLines(ls);
    }
  }

  /** They are the newline-separated lines exactly if none of those is longer than 511 characters,
      its newline included. */
  lemma SeparatedIffShort(content: string, ls: seq<string>)
    requires Joined(ls) == content && AreSeparated(ls)
    ensures Lines(content) == ls <==> forall line | line in ls :: |line| <= 511
  {
    LinesIff(content, ls);
    hide Lines;
    if AreReads(ls) {
      assert forall k | 0 <= k < |ls| :: OneRead(ls[k], k == |ls| - 1);
    } else {
      var k :| 0 <= k < |ls| && !OneRead(ls[k], k == |ls| - 1);
      assert Separated(ls[k], k == |ls| - 1) && ls[k] in ls;
    }
  }

  // ----- The pattern of a line -----

  ghost predicate AllBlank(s: string)
  {
    forall k | 0 <= k < |s| :: s[k] == ' ' || s[k] == '\t'
  }

  predicate LineEnd(c: char)
  {
    c == '\r' || c == '\n'
  }

  /** What is left of a line: nothing of the blanks it begins with, nothing from its first CR or
      newline on. */
  ghost predicate CleanedTo(line: string, blanks: string, text: string, tail: string)
  {
    && line == blanks + text + tail && AllBlank(blanks)
    && (forall k | 0 <= k < |text| :: !LineEnd(text[k]))
    && (text != "" ==> !Blank(text[0]))
    && (tail != "" ==> LineEnd(tail[0]))
  }

  lemma {:induction false} SkipBlanksIs(s: string, blanks: string, text: string)
    requires s == blanks + text && AllBlank(blanks) && (text != "" ==> !Blank(text[0]))
    ensures SkipBlanks(s) == text
  {
    if blanks != "" {
      assert s[1..] == blanks[1..] + text;
      SkipBlanksIs(s[1..], blanks[1..], text);
    } else {
      assert s == text;
    }
  }

  lemma {:induction false} BlanksSkipped(s: string) returns (blanks: string)
    ensures s == blanks + SkipBlanks(s) && AllBlank(blanks)
    ensures SkipBlanks(s) != "" ==> !Blank(SkipBlanks(s)[0])
  {
    if s != "" && Blank(s[0]) {
      var more := BlanksSkipped(s[1..]);
      blanks := [s[0]] + more;
      assert s == [s[0]] + s[1..];
    } else {
      blanks := "";
    }
  }

  lemma {:induction false} UpToLineEndIs(s: string, text: string, tail: string)
    requires s == text + tail && (forall k | 0 <= k < |text| :: !LineEnd(text[k])) && (tail != "" ==> LineEnd(tail[0]))
    ensures UpToLineEnd(s) == text
  {
    if text != "" {
      assert s[1..] == text[1..] + tail;
      UpToLineEndIs(s[1..], text[1..], tail);
      assert text == [text[0]] + text[1..];
    }
  }

  lemma {:induction false} LineEndCut(s: string) returns (tail: string)
    ensures s == UpToLineEnd(s) + tail && (tail != "" ==> LineEnd(tail[0]))
    ensures forall k | 0 <= k < |UpToLineEnd(s)| :: !LineEnd(UpToLineEnd(s)[k])
  {
    if s == "" || LineEnd(s[0]) {
      tail := s;
    } else {
      tail := LineEndCut(s[1..]);
      assert s == [s[0]] + s[1..];
    }
  }

  lemma CleanIff(line: string, text: string)
    ensures Clean(line) == text <==> exists blanks, tail :: CleanedTo(line, blanks, text, tail)
  {
    if Clean(line) == text {
      var tail := LineEndCut(line);
      var blanks := BlanksSkipped(UpToLineEnd(line));
      assert text == UpToLineEnd(line)[|blanks|..];
      assert CleanedTo(line, blanks, text, tail);
    }
    if blanks, tail :| CleanedTo(line, blanks, text, tail) {
      assert line == (blanks + text) + tail;
      UpToLineEndIs(line, blanks + text, tail);
      SkipBlanksIs(blanks + text, blanks, text);
    }
  }

  function TextOf(p: IgnorePattern): string
  {
    if p.isDirectory then p.pattern + "/" else p.pattern
  }

  /** How a line is spelled that stands for the pattern `p`: blanks, a bang and more blanks if it is a
      negation, the text with a slash if it is for directories, and whatever comes after a CR or
      newline. The text begins with no blank, and without a bang before it with no bang and no hash. */
  ghost predicate SpelledAs(line: string, p: IgnorePattern, blanks: string, more: string, tail: string)
  {
    var text := TextOf(p);
    && line == blanks + ((if p.isNegation then "!" + more else "") + text) + tail
    && AllBlank(blanks) && AllBlank(more)
    && text != "" && !Blank(text[0])
    && (p.isDirectory <==> text[|text| - 1] == '/')
    && (!p.isNegation ==> text[0] != '!' && text[0] != '#')
    && (forall k | 0 <= k < |text| :: !LineEnd(text[k]))
    && (tail != "" ==> LineEnd(tail[0]))
  }

  /** The pattern that a line contributes. */
  function PatternOf(line: string, baseDir: string): Option<IgnorePattern>
  {
    if Counts(line) then ParseLine(Clean(line), baseDir) else None
  }

  lemma SpelledCleans(line: string, p: IgnorePattern, blanks: string, more: string, tail: string)
    requires SpelledAs(line, p, blanks, more, tail)
    ensures CleanedTo(line, blanks, (if p.isNegation then "!" + more else "") + TextOf(p), tail)
  {
    var text := TextOf(p);
    var front := if p.isNegation then "!" + more else "";
    assert forall k | 0 <= k < |more| :: !LineEnd(more[k]);
    assert forall k | 0 <= k < |front| :: !LineEnd(front[k]);
    assert front != "" ==> front[0] == '!';
  }

  /** What ParseLine does after a bang. */
  lemma ParseText(line: string, p: IgnorePattern)
    requires line != "" && (p.isNegation <==> line[0] == '!')
    ensures var text := SkipBlanks(if p.isNegation then line[1..] else line);
            ParseLine(line, p.baseDir) == Some(p) <==>
              text != "" && text == TextOf(p) && (p.isDirectory <==> text[|text| - 1] == '/')
  {
    var text := SkipBlanks(if p.isNegation then line[1..] else line);
    if text != "" {
      assert text == text[..|text| - 1] + [text[|text| - 1]];
      assert (p.pattern + "/")[..|p.pattern|] == p.pattern;
    }
    hide SkipBlanks;
  }

  lemma SpelledParses(line: string, p: IgnorePattern, blanks: string, more: string, tail: string)
    requires SpelledAs(line, p, blanks, more, tail)
    ensures PatternOf(line, p.baseDir) == Some(p)
  {
    var text := TextOf(p);
    var cleaned := (if p.isNegation then "!" + more else "") + text;
    SpelledCleans(line, p, blanks, more, tail);
    CleanIff(line, cleaned);
    ParseText(cleaned, p);
    assert p.isNegation ==> cleaned[1..] == more + text;
    assert AllBlank(more) && AllBlank("");
    hide Clean, CleanedTo, SpelledAs, Blank, AllBlank, LineEnd, ParseLine;
    SkipBlanksIs(if p.isNegation then cleaned[1..] else cleaned, if p.isNegation then more else "", text);
  }

  lemma ParsedText(cleaned: string, p: IgnorePattern) returns (more: string)
    requires ParseLine(cleaned, p.baseDir) == Some(p)
    ensures var text := TextOf(p);
            && AllBlank(more) && text != "" && !Blank(text[0])
            && cleaned == (if p.isNegation then "!" + more else more) + text
            && (p.isDirectory <==> text[|text| - 1] == '/')
            && (p.isNegation <==> cleaned[0] == '!')
  {
    assert cleaned != "" && (p.isNegation <==> cleaned[0] == '!');
    hide AllBlank, Blank, TextOf;
    ParseText(cleaned, p);
    hide ParseLine, SkipBlanks;
    var rest := if p.isNegation then cleaned[1..] else cleaned;
    more := BlanksSkipped(rest);
    assert p.isNegation ==> cleaned == "!" + rest;
    assert ("!" + more) + TextOf(p) == "!" + (more + TextOf(p));
  }

  lemma NoLineEnd(front: string, text: string)
    requires forall k | 0 <= k < |front + text| :: !LineEnd((front + text)[k])
    ensures forall k | 0 <= k < |text| :: !LineEnd(text[k])
  {
    assert forall k | 0 <= k < |text| :: text[k] == (front + text)[|front| + k];
  }

  lemma SpelledOut(line: string, p: IgnorePattern, blanks: string, cleaned: string, more: string, tail: string)
    requires CleanedTo(line, blanks, cleaned, tail) && AllBlank(more)
    requires var text := TextOf(p);
             && text != "" && !Blank(text[0]) && (p.isDirectory <==> text[|text| - 1] == '/')
             && cleaned == (if p.isNegation then "!" + more else more) + text
             && (p.isNegation <==> cleaned[0] == '!') && cleaned[0] != '#'
    ensures SpelledAs(line, p, blanks, if p.isNegation then more else "", tail)
  {
    var text := TextOf(p);
    var front := if p.isNegation then "!" + more else more;
    assert !p.isNegation ==> front == "" by {
      assert more != "" ==> (more + text)[0] == more[0];
    }
    NoLineEnd(front, text);
    assert cleaned[0] == if p.isNegation then '!' else text[0];
    hide AllBlank, LineEnd;
    assert front == if p.isNegation then "!" + more else "";
  }

  lemma ParsedIsSpelled(line: string, p: IgnorePattern)
    requires PatternOf(line, p.baseDir) == Some(p)
    ensures exists blanks, more, tail :: SpelledAs(line, p, blanks, more, tail)
  {
    hide Clean, ParseLine, CleanedTo, SpelledAs;
    var cleaned := Clean(line);
    CleanIff(line, cleaned);
    var blanks, tail :| CleanedTo(line, blanks, cleaned, tail);
    var more := ParsedText(cleaned, p);
    SpelledOut(line, p, blanks, cleaned, more, tail);
  }

  /** A line contributes a pattern exactly if it is spelled like that. */
  lemma PatternOfIff(line: string, p: IgnorePattern)
    ensures PatternOf(line, p.baseDir) == Some(p) <==> exists blanks, more, tail :: SpelledAs(line, p, blanks, more, tail)
  {
    hide PatternOf, SpelledAs;
    if PatternOf(line, p.baseDir) == Some(p) {
      ParsedIsSpelled(line, p);
    }
    if blanks, more, tail :| SpelledAs(line, p, blanks, more, tail) {
      SpelledParses(line, p, blanks, more, tail);
    }
  }

  lemma PatternsInSnoc(lines: seq<string>, line: string, baseDir: string)
    ensures PatternsIn(lines + [line], baseDir) == PatternsIn(lines, baseDir) + Contributed(line, baseDir)
  {
    hide Counts, ParseLine, Clean;
    assert (lines + [line])[..|lines|] == lines;
    assert PatternsIn(lines, baseDir) + [] == PatternsIn(lines, baseDir);
  }

  function Contributed(line: string, baseDir: string): seq<IgnorePattern>
  {
    match PatternOf(line, baseDir)
    case None => []
    case Some(p) => [p]
  }

  /** The patterns of a file are those that its lines contribute, in order. */
  lemma {:induction false} PatternsInOrder(a: seq<string>, b: seq<string>, baseDir: string)
    ensures PatternsIn(a + b, baseDir) == PatternsIn(a, baseDir) + PatternsIn(b, baseDir)
    ensures |b| == 1 ==> PatternsIn(b, baseDir) == Contributed(b[0], baseDir)
  {
    hide PatternOf, Contributed, Counts, ParseLine, Clean;
    if b == [] {
      assert a + b == a;
    } else {
      var before, line := b[..|b| - 1], b[|b| - 1];
      assert a + b == (a + before) + [line] && b == before + [line];
      PatternsInOrder(a, before, baseDir);
      PatternsInSnoc(a + before, line, baseDir);
      PatternsInSnoc(before, line, baseDir);
      Associative(PatternsIn(a, baseDir), PatternsIn(before, baseDir), Contributed(line, baseDir));
      assert [] + Contributed(line, baseDir) == Contributed(line, baseDir);
    }
  }

  // ----- What a pattern is compared to -----

  /** A component of the path begins at `i`. */
  ghost predicate Begins(path: string, i: nat)
  {
    i <= |path| && (i == 0 || path[i - 1] == '/')
  }

  /** `s` is the rest of the path from some component on. */
  ghost predicate RestOf(path: string, i: nat, s: string)
  {
    Begins(path, i) && s == path[i..]
  }

  function LessDotSlash(path: string): string
  {
    if "./" <= path then path[2..] else path
  }

  /** What a pattern is compared to: with a slash in it to the whole path less a leading ./, without
      one to the base name and to the rest of the path from any component on. */
  ghost predicate ComparedTo(pattern: string, path: string, s: string, pathname: bool)
  {
    var clean := LessDotSlash(path);
    if '/' in pattern then pathname && s == clean
    else if pathname then s != "" && exists i: nat :: RestOf(clean, i, s)
    else '/' !in s && exists i: nat :: RestOf(path, i, s)
  }

  lemma {:induction false} AfterSlashIs(s: string) returns (m: nat)
    requires '/' in s
    ensures m < |s| && s[m] == '/' && '/' !in s[..m] && AfterSlash(s) == Some(s[m + 1..])
  {
    if s[0] == '/' {
      m := 0;
    } else {
      var n := AfterSlashIs(s[1..]);
      m := n + 1;
      assert s[..m] == [s[0]] + s[1..][..n];
    }
  }

  ghost predicate TailMatches(fn: Fnmatch, pattern: string, rest: string, i: nat)
  {
    i < |rest| && Begins(rest, i) && fn(pattern, rest[i..], true)
  }

  lemma {:induction false} SuffixMatchesIff(fn: Fnmatch, pattern: string, rest: string)
    ensures SuffixMatches(fn, pattern, rest) <==> exists i: nat :: TailMatches(fn, pattern, rest, i)
    decreases |rest|
  {
    assert rest[0..] == rest;
    assert TailMatches(fn, pattern, rest, 0) <==> rest != "" && fn(pattern, rest, true);
    if '/' in rest {
      var m := AfterSlashIs(rest);
      var next := rest[m + 1..];
      SuffixMatchesIff(fn, pattern, next);
      forall i: nat
        ensures TailMatches(fn, pattern, next, i) <==> TailMatches(fn, pattern, rest, i + m + 1)
      {
        assert i <= |next| ==> next[i..] == rest[i + m + 1..];
      }
      assert forall j | 0 <= j < m :: rest[j] == rest[..m][j];
      forall i: nat | TailMatches(fn, pattern, rest, i) && i > 0
        ensures i > m && TailMatches(fn, pattern, next, i - m - 1)
      {
      }
    }
  }

  lemma {:induction false} BaseNameFrom(s: string) returns (n: nat)
    ensures Begins(s, n) && BaseName(s) == s[n..] && forall j | n <= j < |s| :: s[j] != '/'
  {
    if s == "" || s[|s| - 1] == '/' {
      n := |s|;
    } else {
      var s0, c := s[..|s| - 1], s[|s| - 1];
      n := BaseNameFrom(s0);
      assert s[n..] == s0[n..] + [c];
    }
  }

  lemma BaseNameIff(path: string, s: string)
    ensures s == BaseName(path) <==> '/' !in s && exists i: nat :: RestOf(path, i, s)
  {
    var at := BaseNameFrom(path);
    hide BaseName;
    assert RestOf(path, at, path[at..]);
    NoSlashFrom(path, at);
    forall i: nat | Begins(path, i) && '/' !in path[i..]
      ensures i == at
    {
      NoSlashFrom(path, i);
    }
  }

  lemma NoSlashFrom(path: string, i: nat)
    requires i <= |path|
    ensures '/' !in path[i..] <==> forall j | i <= j < |path| :: path[j] != '/'
  {
    if j :| i <= j < |path| && path[j] == '/' {
      assert path[i..][j - i] == '/';
    }
  }

  /** A pattern matches a path exactly if it matches something it is compared to; one for directories
      matches nothing else. */
  lemma MatchesIff(fn: Fnmatch, p: IgnorePattern, path: string, checkDir: bool)
    ensures PathMatches(fn, p, path, checkDir)
       <==> (p.isDirectory ==> checkDir) && exists s, flag :: ComparedTo(p.pattern, path, s, flag) && fn(p.pattern, s, flag)
  {
    hide SuffixMatches, BaseName;
    var clean := WithoutDotSlash(path);
    assert clean == LessDotSlash(path);
    hide LessDotSlash, WithoutDotSlash;
    assert ComparedTo(p.pattern, path, clean, true) || '/' !in p.pattern;
    if '/' !in p.pattern {
      BaseNameIff(path, BaseName(path));
      assert ComparedTo(p.pattern, path, BaseName(path), false);
      SuffixMatchesIff(fn, p.pattern, clean);
      if i: nat :| TailMatches(fn, p.pattern, clean, i) {
        assert RestOf(clean, i, clean[i..]) && |clean[i..]| > 0;
        assert ComparedTo(p.pattern, path, clean[i..], true);
      }
      forall s, flag | ComparedTo(p.pattern, path, s, flag) && fn(p.pattern, s, flag)
        ensures fn(p.pattern, BaseName(path), false) || SuffixMatches(fn, p.pattern, clean)
      {
        if flag {
          var i: nat :| RestOf(clean, i, s);
          assert |clean[i..]| == |clean| - i > 0;
          assert TailMatches(fn, p.pattern, clean, i);
        } else {
          BaseNameIff(path, s);
        }
      }
    }
  }

  /** `rel` is the path as seen from `dir`: the path itself from ".", and "." from the path itself. */
  ghost predicate SeenFrom(path: string, dir: string, rel: string)
  {
    if dir == "." then rel == path
    else (path == dir && rel == ".") || path == dir + "/" + rel
  }

  lemma SeenFromIff(path: string, dir: string, rel: string)
    ensures PathIsUnderDir(path, dir) && rel == RelPath(path, dir) <==> SeenFrom(path, dir, rel)
  {
    if dir != "." && Below(path, dir) {
      assert path[..|dir|] == dir;
      assert |path| > |dir| ==> path == dir + "/" + path[|dir| + 1..];
      assert |path| == |dir| ==> path == dir;
    }
    if dir != "." && path == dir + "/" + rel {
      assert path[..|dir|] == dir && path[|dir| + 1..] == rel;
    }
  }

  /** A pattern hits a path exactly if it matches something it is compared to when the path is seen from
      the directory of its .gitignore; one for directories hits directories only. */
  lemma HitsIff(fn: Fnmatch, p: IgnorePattern, path: string, isDir: bool)
    ensures Hits(fn, p, path, isDir)
       <==> (p.isDirectory ==> isDir)
            && exists rel, s, flag :: SeenFrom(path, p.baseDir, rel) && ComparedTo(p.pattern, rel, s, flag) && fn(p.pattern, s, flag)
  {
    hide PathMatches, ComparedTo, SeenFrom, RelPath, PathIsUnderDir;
    var rel := RelPath(path, p.baseDir);
    SeenFromIff(path, p.baseDir, rel);
    MatchesIff(fn, p, rel, isDir);
    forall rel' | SeenFrom(path, p.baseDir, rel')
      ensures rel' == rel
    {
      SeenFromIff(path, p.baseDir, rel');
    }
  }
}
