/** Which ttys are known, and what closing and reporting do to the tables. */
module DirRuns {
  import opened Collections
  import opened DirHistory
  import opened DirNavigation

  // ----- Closing -----

  lemma {:induction false} WithoutSplits(ttys: seq<int>, tty: int) returns (k: nat)
    requires tty in ttys
    ensures k < |ttys| && ttys[k] == tty && Without(ttys, tty) == ttys[..k] + ttys[k + 1..]
  {
    if ttys[0] == tty {
      k := 0;
    } else {
      k := WithoutSplits(ttys[1..], tty);
      assert ttys[1..][..k] == ttys[1..k + 1] && ttys[1..][k + 1..] == ttys[k + 2..];
      assert ttys[..k + 1] == [ttys[0]] + ttys[1..k + 1];
      k := k + 1;
    }
  }

  /** Closing succeeds exactly if the tty is live. Then its terminal and its pointer are gone, and the
      other terminals with their order, every other pointer, the history and the last touched index
      stay; otherwise nothing changes. */
  lemma CloseIs(db: Db, tty: int)
    requires Inv(db)
    ensures var (db', ok) := Close(db, tty);
            && (ok <==> tty in db.instances)
            && (!ok ==> db' == db)
            && db'.history == db.history && db'.lastTouched == db.lastTouched
            && (ok ==> tty !in db'.sessions && tty !in db'.instances
                       && exists k: nat :: k < |db.instances| && db.instances[k] == tty
                                           && db'.instances == db.instances[..k] + db.instances[k + 1..])
            && forall t | t != tty :: (t in db'.sessions <==> t in db.sessions) && (t in db.sessions ==> db'.sessions[t] == db.sessions[t])
  {
    CloseInv(db, tty);
    hide Inv, Without;
    if tty in db.instances {
      var k := WithoutSplits(db.instances, tty);
    }
  }

  // ----- Which ttys are known -----

  /** A terminal and a pointer, or neither. */
  ghost predicate Known(db: Db, t: int)
  {
    t in db.instances && t in db.sessions
  }

  ghost predicate Unknown(db: Db, t: int)
  {
    t !in db.instances && t !in db.sessions
  }

  lemma EnsureKnows(db: Db, tty: int, isDir: IsDirectory)
    requires Inv(db)
    ensures var db1 := Ensure(db, tty, isDir);
            && Inv(db1) && Known(db1, tty)
            && forall t | t != tty :: (Known(db1, t) <==> Known(db, t)) && (Unknown(db1, t) <==> Unknown(db, t))
  {
    EnsureInv(db, tty, isDir);
    EntriesOf(Ensure(db, tty, isDir));
    hide Inv, LastLive, MaxIndex, Standardize;
  }

  /** The same ttys are known in both. */
  ghost predicate SameKnown(db: Db, db': Db)
  {
    forall t :: (Known(db', t) <==> Known(db, t)) && (Unknown(db', t) <==> Unknown(db, t))
  }

  lemma PruneKnows(db: Db, maxSize: nat)
    requires Contiguous(db.history) && maxSize > 0
    ensures SameKnown(db, Prune(db, maxSize))
  {
    PruneIs(db, maxSize);
    hide Prune, Shift, Keep, Contiguous;
  }

  lemma UpdateKnows(db: Db, tty: int, reported: string, isDir: IsDirectory)
    requires Inv(db)
    ensures SameKnown(Ensure(db, tty, isDir), Update(db, tty, reported, isDir).0)
  {
    hide Update, Prune, Ensure, Standardize, Stored, MaxIndex, Inv;
    EnsureKnows(db, tty, isDir);
    UpdateIs(db, tty, reported, isDir);
    var db1 := Ensure(db, tty, isDir);
    ReportMeans(db1, tty, reported);
    if ReportOf(db1, tty, reported) == Appends {
      AppendedFits(db1, tty, Standardize(reported));
      PruneKnows(Appended(db1, tty, Standardize(reported)), MAX_DIR_HISTORY_SIZE);
    }
  }

  lemma OpenKnows(db: Db, tty: int, isDir: IsDirectory)
    requires Inv(db)
    ensures SameKnown(Ensure(db, tty, isDir), Open(db, tty, isDir).0)
  {
    hide Inv, Ensure, LastLive, Standardize;
    EnsureKnows(db, tty, isDir);
  }

  lemma MovesKnow(db: Db, tty: int, isDir: IsDirectory)
    requires Inv(db)
    ensures SameKnown(Ensure(db, tty, isDir), Forward(db, tty, isDir))
    ensures SameKnown(Ensure(db, tty, isDir), Backward(db, tty, isDir))
  {
    hide Inv, Ensure, LastLive, FirstLive, MaxIndex;
    EnsureKnows(db, tty, isDir);
  }

  lemma PerformKnows(db: Db, c: Command, isDir: IsDirectory, t: int)
    requires Inv(db)
    ensures var db' := Perform(db, c, isDir);
            && (t == c.tty && !c.CloseTty? ==> Known(db', t))
            && (t == c.tty && c.CloseTty? && (Known(db, t) || Unknown(db, t)) ==> Unknown(db', t))
            && (t != c.tty ==> (Known(db', t) <==> Known(db, t)) && (Unknown(db', t) <==> Unknown(db, t)))
  {
    hide Inv, Open, Update, Forward, Backward, Ensure, Close;
    match c
    case OpenTty(tty) => EnsureKnows(db, tty, isDir); OpenKnows(db, tty, isDir);
    case CloseTty(tty) =>
      CloseIs(db, tty);
      CloseInv(db, tty);
      CloseKeepsOthers(db, tty, t);
    case ReportDir(tty, dir) => EnsureKnows(db, tty, isDir); UpdateKnows(db, tty, dir, isDir);
    case CdForward(tty) => EnsureKnows(db, tty, isDir); MovesKnow(db, tty, isDir);
    case CdBackward(tty) => EnsureKnows(db, tty, isDir); MovesKnow(db, tty, isDir);
  }

  lemma CloseKeepsOthers(db: Db, tty: int, t: int)
    requires Inv(db)
    ensures t in Close(db, tty).0.instances <==> t in db.instances && t != tty
  {
    WithoutMember(db.instances, tty);
  }

  /** Some command of the tty is later than every closing of it. */
  ghost predicate InUse(cs: seq<(Command, IsDirectory)>, tty: int)
  {
    exists k :: LastUse(cs, tty, k)
  }

  ghost predicate LastUse(cs: seq<(Command, IsDirectory)>, tty: int, k: int)
  {
    && 0 <= k < |cs| && cs[k].0.tty == tty && !cs[k].0.CloseTty?
    && forall j | k < j < |cs| :: cs[j].0 != CloseTty(tty)
  }

  lemma InUseSnoc(cs: seq<(Command, IsDirectory)>, c: (Command, IsDirectory), tty: int)
    ensures InUse(cs + [c], tty) <==> (c.0.tty == tty && !c.0.CloseTty?) || (InUse(cs, tty) && c.0 != CloseTty(tty))
  {
    var all := cs + [c];
    assert forall j | 0 <= j < |cs| :: all[j] == cs[j];
    if c.0.tty == tty && !c.0.CloseTty? {
      assert LastUse(all, tty, |cs|);
    } else if InUse(cs, tty) && c.0 != CloseTty(tty) {
      var k :| LastUse(cs, tty, k);
      assert LastUse(all, tty, k);
    }
    if k :| LastUse(all, tty, k) && k < |cs| {
      assert all[|cs|].0 != CloseTty(tty);
      assert LastUse(cs, tty, k);
    }
  }

  /** Over every run of commands from empty tables, a tty has a terminal and a pointer if some command
      of it is later than every closing of it, and neither otherwise. */
  lemma {:induction false} KnownIffInUse(cs: seq<(Command, IsDirectory)>, tty: int)
    ensures var db := Run(Db(map[], map[], None, []), cs);
            if InUse(cs, tty) then Known(db, tty) else Unknown(db, tty)
  {
    hide Perform, InUse, Known, Unknown;
    if cs == [] {
      NothingInUse(tty);
    } else {
      var before, c := cs[..|cs| - 1], cs[|cs| - 1];
      assert cs == before + [c];
      KnownIffInUse(before, tty);
      ReachableInv(before);
      InUseSnoc(before, c, tty);
      PerformKnows(Run(Db(map[], map[], None, []), before), c.0, c.1, tty);
    }
  }

  lemma NothingInUse(tty: int)
    ensures !InUse([], tty) && Unknown(Db(map[], map[], None, []), tty)
  {
  }

  // ----- Reporting -----

  /** The tables after a new path has been written behind the others: at most 500 entries are kept, the
      newest ones in order, and the tty is at the last of them, which is the last one touched. */
  ghost predicate WrittenBehind(h: History, pwd: string, db': Db, tty: int)
  {
    var n := |db'.history|;
    && n == (if |h| < 500 then |h| + 1 else 500)
    && (forall i | 0 <= i < n - 1 :: i in db'.history && i + |h| + 1 - n in h && db'.history[i] == h[i + |h| + 1 - n])
    && n - 1 in db'.history && db'.history[n - 1] == pwd
    && tty in db'.sessions && db'.sessions[tty] == n - 1 && db'.lastTouched == Some(n - 1)
  }

  /** A path with a slash at its end. */
  function Slashed(path: string): string
  {
    if path != "" && path[|path| - 1] != '/' then path + "/" else path
  }

  /** The entry of a live tty and the one after it, as a report reads them. */
  lemma EntriesRead(db: Db, tty: int)
    requires Inv(db) && tty in db.instances
    ensures var h, p := db.history, Pointer(db.sessions, tty);
            && tty in db.sessions && p in h && IndexOf(db.sessions, tty) == p
            && Standardize(Entry(h, p)) == h[p]
            && Standardize(Entry(h, p + 1)) == if p + 1 in h then h[p + 1] else "/"
  {
    IndicesOf(db, tty);
    StoredIsStandard(db.history, db.sessions[tty]);
    StoredIsStandard(db.history, db.sessions[tty] + 1);
    hide Inv, Standardize, Entry, Stored, MaxIndex;
  }

  lemma ReportOfIs(db: Db, tty: int, reported: string)
    requires Inv(db) && tty in db.instances
    ensures tty in db.sessions && db.sessions[tty] in db.history
    ensures var h, p, pwd := db.history, db.sessions[tty], Slashed(reported);
            ReportOf(db, tty, reported) ==
              if reported == "" || reported == "/" then Rejected
              else if h[p] == pwd then AlreadyThere
              else if p + 1 in h && h[p + 1] == pwd then MovesOn
              else Appends
    ensures reported != "" && reported != "/" ==> Standardize(reported) == Slashed(reported) != "/"
  {
    EntriesRead(db, tty);
    RootIsRejected(reported);
    hide Inv, Standardize, Entry, IndexOf, Slashed;
    var h, p, pwd := db.history, db.sessions[tty], Standardize(reported);
    var here, next := Standardize(Entry(h, p)), Standardize(Entry(h, p + 1));
    assert ReportOf(db, tty, reported) ==
      if pwd == "/" then Rejected else if here == pwd then AlreadyThere else if next == pwd then MovesOn else Appends;
    hide ReportOf;
  }

  lemma RootIsRejected(reported: string)
    ensures Standardize(reported) == "/" <==> reported == "" || reported == "/"
    ensures reported != "" ==> Standardize(reported) == Slashed(reported)
  {
  }

  /** What a report comes to once the tty has a terminal: nothing but a note of the last touched index
      if it is refused or the tty is there already; a step onward if the next entry is the one reported;
      otherwise a new entry behind the others. */
  lemma ReportIs(db: Db, tty: int, reported: string, isDir: IsDirectory)
    requires Inv(db)
    ensures var (db1, (db', ok)) := (Ensure(db, tty, isDir), Update(db, tty, reported, isDir));
            tty in db1.sessions && db1.sessions[tty] in db1.history &&
            var h, p, pwd := db1.history, db1.sessions[tty], Slashed(reported);
            if reported == "" || reported == "/" then !ok && db' == db1.(lastTouched := Some(p))
            else if h[p] == pwd then ok && db' == db1.(lastTouched := Some(p))
            else if p + 1 in h && h[p + 1] == pwd then ok && db' == db1.(lastTouched := Some(p), sessions := db1.sessions[tty := p + 1])
            else ok && WrittenBehind(h, pwd, db', tty)
  {
    hide Update, Prune, Ensure, Stored, MaxIndex, Inv, WrittenBehind, Standardize, Slashed, ReportOf;
    EnsureInv(db, tty, isDir);
    UpdateIs(db, tty, reported, isDir);
    var db1 := Ensure(db, tty, isDir);
    ReportOfIs(db1, tty, reported);
    ReportMeans(db1, tty, reported);
    if ReportOf(db1, tty, reported) == Appends {
      AppendedIsBehind(db1, tty, Standardize(reported));
    }
  }

  lemma AppendedIsBehind(db: Db, tty: int, pwd: string)
    requires Inv(db) && tty in db.instances && Stored(pwd)
    ensures WrittenBehind(db.history, pwd, Prune(Appended(db, tty, pwd), MAX_DIR_HISTORY_SIZE), tty)
  {
    hide Prune, MaxIndex, Stored, Shift, Keep, Inv;
    EntriesOf(db);
    AppendedFits(db, tty, pwd);
    MaxIndexIs(db.history);
    var db1 := Appended(db, tty, pwd);
    PruneIs(db1, MAX_DIR_HISTORY_SIZE);
    if |db1.history| > MAX_DIR_HISTORY_SIZE {
      ShiftContiguous(db1.history, |db1.history| - MAX_DIR_HISTORY_SIZE);
    }
  }
}
