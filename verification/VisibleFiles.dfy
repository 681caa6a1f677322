/** Which files a scan counts, said without any order: by walking down to each file. */
module VisibleFiles {
  import opened Gitignore
  import opened DirectoryScan

  /** Is the entry at `path` hidden by the patterns in force where it lies? */
  predicate Hidden(fn: Fnmatch, path: string, child: Node, inRepo: bool, scope: seq<IgnorePattern>)
  {
    inRepo && Decide(fn, scope, path, child.Dir?)
  }

  /** Walking down the components `comps` from the directory `node`, no entry on the way is hidden
      and the last one is a regular file, the one recorded in `e`. */
  predicate Visible(fn: Fnmatch, dir: string, node: Node, inRepo: bool, scope: seq<IgnorePattern>, comps: seq<string>, e: FileEntry)
    decreases |comps|
  {
    && node.Dir? && node.info.opens && comps != [] && comps[0] in node.entries
    && var path, child, inside := Join(dir, comps[0]), node.entries[comps[0]], inRepo || node.info.isRepo;
       var within := Scope(scope, node.info, dir, inRepo);
       && !Hidden(fn, path, child, inside, within)
       && if |comps| == 1 then child.Regular? && e == FileEntry(path, child.size, child.lines)
          else Visible(fn, path, child, inside, within, comps[1..], e)
  }

  ghost predicate Shown(fn: Fnmatch, dir: string, node: Node, inRepo: bool, scope: seq<IgnorePattern>, e: FileEntry)
  {
    exists comps :: Visible(fn, dir, node, inRepo, scope, comps, e)
  }

  /** The same one level down: the file `e` is shown through the entry `name`. */
  ghost predicate ShownThrough(fn: Fnmatch, dir: string, node: Node, inRepo: bool, scope: seq<IgnorePattern>, name: string, e: FileEntry)
    requires node.Dir? && name in node.entries
  {
    var path, child := Join(dir, name), node.entries[name];
    !Hidden(fn, path, child, inRepo, scope) &&
    if child.Regular? then e == FileEntry(path, child.size, child.lines)
    else Shown(fn, path, child, inRepo, scope, e)
  }

  lemma ShownIff(fn: Fnmatch, dir: string, node: Node, inRepo: bool, scope: seq<IgnorePattern>, e: FileEntry)
    requires node.Dir? && node.info.opens
    ensures Shown(fn, dir, node, inRepo, scope, e)
       <==> exists name :: name in node.entries &&
              ShownThrough(fn, dir, node, inRepo || node.info.isRepo, Scope(scope, node.info, dir, inRepo), name, e)
  {
    var inside, within := inRepo || node.info.isRepo, Scope(scope, node.info, dir, inRepo);
    forall comps | Visible(fn, dir, node, inRepo, scope, comps, e)
      ensures comps != [] && comps[0] in node.entries && ShownThrough(fn, dir, node, inside, within, comps[0], e)
    {
      if |comps| > 1 {
        assert Visible(fn, Join(dir, comps[0]), node.entries[comps[0]], inside, within, comps[1..], e);
      }
    }
    forall name | name in node.entries && ShownThrough(fn, dir, node, inside, within, name, e)
      ensures Shown(fn, dir, node, inRepo, scope, e)
    {
      if node.entries[name].Regular? {
        assert Visible(fn, dir, node, inRepo, scope, [name], e);
      } else {
        var rest :| Visible(fn, Join(dir, name), node.entries[name], inside, within, rest, e);
        var comps := [name] + rest;
        assert comps[0] == name && comps[1..] == rest && |comps| > 1;
        assert Visible(fn, dir, node, inRepo, scope, comps, e);
      }
    }
  }

  lemma {:induction false} KeptIffShown(fn: Fnmatch, order: Listing, dir: string, node: Node, inRepo: bool, scope: seq<IgnorePattern>, e: FileEntry)
    requires node.Dir? && WellListed(order, dir, node)
    ensures e in ScopedDir(fn, order, dir, node, inRepo, scope).kept <==> Shown(fn, dir, node, inRepo, scope, e)
    decreases node, 1, 0
  {
    if node.info.opens {
      var inside, within := inRepo || node.info.isRepo, Scope(scope, node.info, dir, inRepo);
      ShownIff(fn, dir, node, inRepo, scope, e);
      EntriesKept(fn, order(dir), order, dir, node, inside, within, e);
    }
  }

  lemma {:induction false} EntriesKept(fn: Fnmatch, names: seq<string>, order: Listing, dir: string, node: Node, inRepo: bool,
                                       scope: seq<IgnorePattern>, e: FileEntry)
    requires node.Dir? && WellListed(order, dir, node)
    ensures e in ScopedEntries(fn, names, order, dir, node, inRepo, scope).kept
       <==> exists name :: name in names && name in node.entries && ShownThrough(fn, dir, node, inRepo, scope, name, e)
    decreases node, 0, |names|
  {
    if names != [] {
      var before, name := names[..|names| - 1], names[|names| - 1];
      assert names == before + [name];
      EntriesKept(fn, before, order, dir, node, inRepo, scope, e);
      if name in node.entries {
        EntryKept(fn, order, dir, node, inRepo, scope, name, e);
      }
    }
  }

  lemma {:induction false} EntryKept(fn: Fnmatch, order: Listing, dir: string, node: Node, inRepo: bool,
                                     scope: seq<IgnorePattern>, name: string, e: FileEntry)
    requires node.Dir? && WellListed(order, dir, node) && name in node.entries
    ensures e in ScopedEntry(fn, order, Join(dir, name), node.entries[name], inRepo, scope).kept
       <==> ShownThrough(fn, dir, node, inRepo, scope, name, e)
    decreases node.entries[name], 2, 0
  {
    var path, child := Join(dir, name), node.entries[name];
    if child.Dir? {
      KeptIffShown(fn, order, path, child, inRepo, scope, e);
    }
  }

  // ----- Nothing is kept twice -----

  ghost predicate Distinct(files: seq<FileEntry>)
  {
    forall j, k | 0 <= j < k < |files| :: files[j] != files[k]
  }

  lemma {:induction false} KeptBelow(fn: Fnmatch, order: Listing, dir: string, node: Node, inRepo: bool, scope: seq<IgnorePattern>)
    requires node.Dir? && WellListed(order, dir, node)
    ensures var kept := ScopedDir(fn, order, dir, node, inRepo, scope).kept;
            Distinct(kept) && forall e | e in kept :: Below(e.path, dir)
    decreases node, 1, 0
  {
    if node.info.opens {
      var inside, within := inRepo || node.info.isRepo, Scope(scope, node.info, dir, inRepo);
      EntriesBelow(fn, order(dir), order, dir, node, inside, within);
      forall e | e in ScopedDir(fn, order, dir, node, inRepo, scope).kept
        ensures Below(e.path, dir)
      {
        var n :| n in order(dir) && n in node.entries && Below(e.path, Join(dir, n));
        BelowEntry(dir, n);
        BelowTransitive(e.path, Join(dir, n), dir);
      }
    }
  }

  lemma {:induction false} EntriesBelow(fn: Fnmatch, names: seq<string>, order: Listing, dir: string, node: Node, inRepo: bool, scope: seq<IgnorePattern>)
    requires node.Dir? && WellListed(order, dir, node) && names <= order(dir)
    ensures var kept := ScopedEntries(fn, names, order, dir, node, inRepo, scope).kept;
            Distinct(kept) && forall e | e in kept :: exists n :: n in names && n in node.entries && Below(e.path, Join(dir, n))
    decreases node, 0, |names|
  {
    if names != [] {
      var before, name := names[..|names| - 1], names[|names| - 1];
      assert names == before + [name];
      EntriesBelow(fn, before, order, dir, node, inRepo, scope);
      if !DotName(name) && name in node.entries {
        var a := ScopedEntries(fn, before, order, dir, node, inRepo, scope).kept;
        var b := ScopedEntry(fn, order, Join(dir, name), node.entries[name], inRepo, scope).kept;
        EntryBelow(fn, order, Join(dir, name), node.entries[name], inRepo, scope);
        forall x, y | x in a && y in b
          ensures x != y
        {
          var n :| n in before && n in node.entries && Below(x.path, Join(dir, n));
          if x == y {
            SiblingsApart(x.path, dir, n, name);
          }
        }
        DistinctConcat(a, b);
        forall e | e in a + b
          ensures exists n :: n in names && n in node.entries && Below(e.path, Join(dir, n))
        {
          if e in a {
            var n :| n in before && n in node.entries && Below(e.path, Join(dir, n));
            assert n in names;
          }
        }
      }
    }
  }

  lemma DistinctConcat(a: seq<FileEntry>, b: seq<FileEntry>)
    requires Distinct(a) && Distinct(b)
    requires forall x, y | x in a && y in b :: x != y
    ensures Distinct(a + b)
  {
    forall j, k | 0 <= j < k < |a + b|
      ensures (a + b)[j] != (a + b)[k]
    {
      assert j < |a| <= k ==> (a + b)[j] in a && (a + b)[k] in b;
    }
  }

  lemma {:induction false} EntryBelow(fn: Fnmatch, order: Listing, path: string, child: Node, inRepo: bool, scope: seq<IgnorePattern>)
    requires WellListed(order, path, child)
    ensures var kept := ScopedEntry(fn, order, path, child, inRepo, scope).kept;
            Distinct(kept) && forall e | e in kept :: Below(e.path, path)
    decreases child, 2, 0
  {
    if child.Dir? {
      KeptBelow(fn, order, path, child, inRepo, scope);
    }
  }

  // ----- The order of the entries does not matter -----

  lemma {:induction false} SumRemove(files: seq<FileEntry>, k: nat)
    requires k < |files|
    ensures Sum(files) == files[k].size + Sum(files[..k] + files[k + 1..])
  {
    var a, b := files[..k], files[k + 1..];
    assert files == a + [files[k]] + b;
    SumAppend(a + [files[k]], b);
    SumAppend(a, [files[k]]);
    SumAppend(a, b);
    assert [files[k]][..0] == [];
  }

  lemma NonEmptyHasMember(files: seq<FileEntry>)
    ensures files == [] || exists e :: e in files
  {
    if files != [] {
      assert files[0] in files;
    }
  }

  lemma {:induction false} SameMembersSameSum(a: seq<FileEntry>, b: seq<FileEntry>)
    requires Distinct(a) && Distinct(b)
    requires forall e :: e in a <==> e in b
    ensures Sum(a) == Sum(b) && |a| == |b|
  {
    if a == [] {
      NonEmptyHasMember(b);
    } else {
      var last := a[|a| - 1];
      assert last in b;
      var k :| 0 <= k < |b| && b[k] == last;
      var a', b' := a[..|a| - 1], b[..k] + b[k + 1..];
      SumRemove(b, k);
      forall e
        ensures e in a' <==> e in b'
      {
        assert e in a' <==> e in a && e != last by { assert a == a' + [last]; }
        assert e in b' <==> e in b && e != last by { RemovedMember(b, k, e); }
      }
      SameMembersSameSum(a', b');
    }
  }

  lemma RemovedMember(b: seq<FileEntry>, k: nat, e: FileEntry)
    requires Distinct(b) && k < |b|
    ensures e in b[..k] + b[k + 1..] <==> e in b && e != b[k]
    ensures Distinct(b[..k] + b[k + 1..])
  {
    var rest := b[..k] + b[k + 1..];
    assert forall j | 0 <= j < |rest| :: rest[j] == if j < k then b[j] else b[j + 1];
    if e in b && e != b[k] {
      var j :| 0 <= j < |b| && b[j] == e;
      assert rest[if j < k then j else j - 1] == e;
    }
  }

  /** A list of files is a full account of what is shown: each shown file once, nothing else. */
  ghost predicate Accounts(files: seq<FileEntry>, fn: Fnmatch, dir: string, node: Node, inRepo: bool, scope: seq<IgnorePattern>)
  {
    Distinct(files) && forall e :: e in files <==> Shown(fn, dir, node, inRepo, scope, e)
  }

  /** The scan returns the total size of the regular files that are not ignored and have no ignored
      ancestor: the sum over any account of them, whatever the order in which readdir lists entries.
      If files[] has room for them all, what it gained is such an account, so its sizes add up to the total. */
  lemma ScanSumsShownFiles(fn: Fnmatch, order: Listing, dir: string, node: Node, inRepo: bool, st: ScanState, account: seq<FileEntry>)
    requires node.Dir? && WellListed(order, dir, node)
    requires PatternsFit(fn, order, dir, node, inRepo, st.patterns)
    requires Accounts(account, fn, dir, node, inRepo, st.patterns)
    ensures var (total, st') := ScanDir(fn, order, dir, node, inRepo, st);
            && total == Sum(account)
            && (|st.files| + |account| <= 10000 ==>
                  && st.files <= st'.files
                  && Accounts(st'.files[|st.files|..], fn, dir, node, inRepo, st.patterns)
                  && total == Sum(st'.files[|st.files|..]))
  {
    GlobalListIsScoped(fn, order, dir, node, inRepo, st);
    var kept := ScopedDir(fn, order, dir, node, inRepo, st.patterns).kept;
    KeptAccounts(fn, order, dir, node, inRepo, st.patterns);
    forall e
      ensures e in kept <==> e in account
    {
      assert Accounts(kept, fn, dir, node, inRepo, st.patterns);
    }
    SameMembersSameSum(kept, account);
    assert (st.files + kept)[|st.files|..] == kept;
  }

  lemma KeptAccounts(fn: Fnmatch, order: Listing, dir: string, node: Node, inRepo: bool, scope: seq<IgnorePattern>)
    requires node.Dir? && WellListed(order, dir, node)
    ensures Accounts(ScopedDir(fn, order, dir, node, inRepo, scope).kept, fn, dir, node, inRepo, scope)
  {
    KeptBelow(fn, order, dir, node, inRepo, scope);
    forall e
      ensures e in ScopedDir(fn, order, dir, node, inRepo, scope).kept <==> Shown(fn, dir, node, inRepo, scope, e)
    {
      KeptIffShown(fn, order, dir, node, inRepo, scope, e);
    }
  }

  /** How many patterns each entry of a directory contributes, as a list that can be summed. */
  function Shares(fn: Fnmatch, names: seq<string>, order: Listing, dir: string, node: Node, inRepo: bool, scope: seq<IgnorePattern>): seq<FileEntry>
    requires node.Dir?
  {
    if names == [] then [] else
    var before, name := Shares(fn, names[..|names| - 1], order, dir, node, inRepo, scope), names[|names| - 1];
    if DotName(name) || name !in node.entries then before
    else before + [Share(fn, order, dir, node, inRepo, scope, name)]
  }

  function Share(fn: Fnmatch, order: Listing, dir: string, node: Node, inRepo: bool, scope: seq<IgnorePattern>, name: string): FileEntry
    requires node.Dir? && name in node.entries
  {
    FileEntry(name, |ScopedEntry(fn, order, Join(dir, name), node.entries[name], inRepo, scope).met|, 0)
  }

  lemma {:induction false} SharesSum(fn: Fnmatch, names: seq<string>, order: Listing, dir: string, node: Node, inRepo: bool, scope: seq<IgnorePattern>)
    requires node.Dir?
    ensures |ScopedEntries(fn, names, order, dir, node, inRepo, scope).met| == Sum(Shares(fn, names, order, dir, node, inRepo, scope))
  {
    if names != [] {
      var before, name := names[..|names| - 1], names[|names| - 1];
      SharesSum(fn, before, order, dir, node, inRepo, scope);
      if !DotName(name) && name in node.entries {
        var shares := Shares(fn, before, order, dir, node, inRepo, scope);
        assert (shares + [Share(fn, order, dir, node, inRepo, scope, name)])[..|shares|] == shares;
      }
    }
  }

  lemma {:induction false} SharesMember(fn: Fnmatch, names: seq<string>, order: Listing, dir: string, node: Node, inRepo: bool,
                                        scope: seq<IgnorePattern>, e: FileEntry)
    requires node.Dir?
    ensures e in Shares(fn, names, order, dir, node, inRepo, scope)
       <==> e.path in names && !DotName(e.path) && e.path in node.entries && e == Share(fn, order, dir, node, inRepo, scope, e.path)
  {
    if names != [] {
      SharesMember(fn, names[..|names| - 1], order, dir, node, inRepo, scope, e);
      assert names == names[..|names| - 1] + [names[|names| - 1]];
    }
  }

  lemma {:induction false} SharesDistinct(fn: Fnmatch, names: seq<string>, order: Listing, dir: string, node: Node, inRepo: bool, scope: seq<IgnorePattern>)
    requires node.Dir? && forall j, k | 0 <= j < k < |names| :: names[j] != names[k]
    ensures Distinct(Shares(fn, names, order, dir, node, inRepo, scope))
  {
    if names != [] {
      var before, name := names[..|names| - 1], names[|names| - 1];
      SharesDistinct(fn, before, order, dir, node, inRepo, scope);
      if !DotName(name) && name in node.entries {
        SharesMember(fn, before, order, dir, node, inRepo, scope, Share(fn, order, dir, node, inRepo, scope, name));
      }
    }
  }

  /** How many patterns a scan meets does not depend on the order of the entries. */
  lemma {:induction false} MetInAnyOrder(fn: Fnmatch, order: Listing, order': Listing, dir: string, node: Node, inRepo: bool, scope: seq<IgnorePattern>)
    requires node.Dir? && WellListed(order, dir, node) && WellListed(order', dir, node)
    ensures |ScopedDir(fn, order, dir, node, inRepo, scope).met| == |ScopedDir(fn, order', dir, node, inRepo, scope).met|
    decreases node
  {
    if node.info.opens {
      var inside, within := inRepo || node.info.isRepo, Scope(scope, node.info, dir, inRepo);
      forall name | name in node.entries
        ensures Share(fn, order, dir, node, inside, within, name) == Share(fn, order', dir, node, inside, within, name)
      {
        var path, child := Join(dir, name), node.entries[name];
        if child.Dir? {
          MetInAnyOrder(fn, order, order', path, child, inside, within);
        }
      }
      var a, b := Shares(fn, order(dir), order, dir, node, inside, within), Shares(fn, order'(dir), order', dir, node, inside, within);
      forall e
        ensures e in a <==> e in b
      {
        SharesMember(fn, order(dir), order, dir, node, inside, within, e);
        SharesMember(fn, order'(dir), order', dir, node, inside, within, e);
      }
      SharesDistinct(fn, order(dir), order, dir, node, inside, within);
      SharesDistinct(fn, order'(dir), order', dir, node, inside, within);
      SameMembersSameSum(a, b);
      SharesSum(fn, order(dir), order, dir, node, inside, within);
      SharesSum(fn, order'(dir), order', dir, node, inside, within);
    }
  }

  /** Two scans of the same tree that differ only in the order of the directory entries return the
      same total: if the patterns fit in one order, they fit in the other. */
  lemma ReaddirOrderIsIrrelevant(fn: Fnmatch, order: Listing, order': Listing, dir: string, node: Node, inRepo: bool, st: ScanState)
    requires node.Dir? && WellListed(order, dir, node) && WellListed(order', dir, node)
    requires PatternsFit(fn, order, dir, node, inRepo, st.patterns)
    ensures PatternsFit(fn, order', dir, node, inRepo, st.patterns)
    ensures ScanDir(fn, order, dir, node, inRepo, st).0 == ScanDir(fn, order', dir, node, inRepo, st).0
  {
    var account := ScopedDir(fn, order, dir, node, inRepo, st.patterns).kept;
    KeptAccounts(fn, order, dir, node, inRepo, st.patterns);
    MetInAnyOrder(fn, order, order', dir, node, inRepo, st.patterns);
    ScanSumsShownFiles(fn, order, dir, node, inRepo, st, account);
    ScanSumsShownFiles(fn, order', dir, node, inRepo, st, account);
  }
}
