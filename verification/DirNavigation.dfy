/** Pruning, reporting and navigating: what the shared history promises. */
module DirNavigation {
  import opened Collections
  import opened DirHistory

  // ----- Pruning -----

  lemma KeepSmallest(h: History, d: int)
    requires Contiguous(h) && 0 < d < |h|
    ensures Smallest(h.Keys) == 0
    ensures Keep(h, d) != map[] && Smallest(Keep(h, d).Keys) == d
  {
    assert 0 in h && Smallest(h.Keys) in h;
    var kept := Keep(h, d);
    assert d in kept && Smallest(kept.Keys) in kept;
  }

  ghost function Pruned(db: Db, d: int): Db
  {
    db.(history := Shift(Keep(db.history, d), d), sessions := ShiftSessions(db.sessions, d),
        lastTouched := if db.lastTouched.Some? then Some(ClampAt0(db.lastTouched.value - d)) else None)
  }

  /** What pruning makes of a contiguous history. */
  lemma PruneIs(db: Db, maxSize: nat)
    requires Contiguous(db.history) && maxSize > 0
    ensures Prune(db, maxSize) == if |db.history| <= maxSize then db else Pruned(db, |db.history| - maxSize)
  {
    hide Keep, Shift, ShiftSessions, Contiguous, ClampAt0;
    if |db.history| > maxSize {
      KeepSmallest(db.history, |db.history| - maxSize);
    }
  }

  lemma ShiftedEntry(h: History, d: int, i: int)
    requires Contiguous(h) && 0 <= d <= |h|
    ensures i in Shift(Keep(h, d), d) <==> 0 <= i < |h| - d
    ensures i in Shift(Keep(h, d), d) ==> Shift(Keep(h, d), d)[i] == h[i + d]
  {
    ShiftAt(Keep(h, d), d, i);
    hide Shift;
    assert i + d in Keep(h, d) <==> 0 <= i < |h| - d;
  }

  lemma ShiftContiguous(h: History, d: int)
    requires Contiguous(h) && 0 <= d <= |h|
    ensures var h' := Shift(Keep(h, d), d);
            Contiguous(h') && |h'| == |h| - d && forall i | i in h' :: h'[i] == h[i + d]
  {
    hide Shift, Keep;
    var h' := Shift(Keep(h, d), d);
    forall i: int
      ensures i in h' <==> 0 <= i < |h| - d
      ensures i in h' ==> h'[i] == h[i + d]
    {
      ShiftedEntry(h, d, i);
    }
    RangeSize(h'.Keys, |h| - d);
    assert |h'| == |h'.Keys|;
  }

  lemma {:induction false} RangeSize(s: set<int>, n: nat)
    requires forall i :: i in s <==> 0 <= i < n
    ensures |s| == n
  {
    if n == 0 {
      assert forall i :: i !in s;
      assert s == {};
    } else {
      assert n - 1 in s;
      RangeSize(s - {n - 1}, n - 1);
    }
  }

  /** Pruning keeps the path behind every pointer that survives and clamps the others to the oldest
      entry kept; the indices stay contiguous. */
  lemma PruneKeepsPaths(db: Db, maxSize: nat, tty: int)
    requires Contiguous(db.history) && maxSize > 0
    requires tty in db.sessions && db.sessions[tty] in db.history
    ensures var db', d := Prune(db, maxSize), |db.history| - maxSize;
            && Contiguous(db'.history) && |db'.history| == (if d > 0 then maxSize else |db.history|)
            && tty in db'.sessions && db'.sessions[tty] in db'.history
            && db'.history[db'.sessions[tty]] == db.history[if db.sessions[tty] < d then d else db.sessions[tty]]
            && (db.sessions[tty] < d ==> db'.sessions[tty] == 0)
  {
    hide Prune, Shift, Keep;
    var d := |db.history| - maxSize;
    PruneIs(db, maxSize);
    if d > 0 {
      ShiftContiguous(db.history, d);
    }
  }

  lemma PruneInv(db: Db)
    requires InvButSize(db)
    ensures Inv(Prune(db, MAX_DIR_HISTORY_SIZE))
  {
    hide Prune, Shift, Keep, Stored;
    var d := |db.history| - MAX_DIR_HISTORY_SIZE;
    PruneIs(db, MAX_DIR_HISTORY_SIZE);
    if d > 0 {
      ShiftContiguous(db.history, d);
      forall t | t in db.sessions
        ensures Pruned(db, d).sessions[t] in Pruned(db, d).history
      {
        assert db.sessions[t] in db.history;
      }
    }
  }

  // ----- Reporting a directory -----

  lemma StandardizedIsStored(path: string)
    ensures Standardize(path) == "/" || Stored(Standardize(path))
  {
  }

  lemma StoredIsStandard(h: History, i: int)
    requires forall k | k in h :: Stored(h[k])
    ensures Standardize(Entry(h, i)) == if i in h then h[i] else "/"
  {
  }

  /** The tables just before a new entry may be pruned. */
  ghost function Appended(db: Db, tty: int, pwd: string): Db
  {
    var at := MaxIndex(db.history) + 1;
    db.(history := db.history[at := pwd], sessions := db.sessions[tty := at], lastTouched := Some(at))
  }

  lemma AppendedFits(db: Db, tty: int, pwd: string)
    requires Inv(db) && Stored(pwd)
    ensures var db' := Appended(db, tty, pwd);
            && Contiguous(db'.history) && |db'.history| == |db.history| + 1
            && db'.sessions == db.sessions[tty := |db.history|] && db'.history == db.history[|db.history| := pwd]
            && (tty in db.instances ==> InvButSize(db'))
  {
    MaxIndexIs(db.history);
    AppendContiguous(db.history, pwd);
  }

  datatype Report = Rejected | AlreadyThere | MovesOn | Appends

  /** Which of its branches a report takes. */
  function ReportOf(db: Db, tty: int, reported: string): Report
  {
    var index, pwd := IndexOf(db.sessions, tty), Standardize(reported);
    if pwd == "/" then Rejected
    else if Standardize(Entry(db.history, index)) == pwd then AlreadyThere
    else if Standardize(Entry(db.history, index + 1)) == pwd then MovesOn
    else Appends
  }

  lemma UpdateIs(db: Db, tty: int, reported: string, isDir: IsDirectory)
    requires Inv(db)
    ensures var db1 := Ensure(db, tty, isDir);
            var index, pwd := IndexOf(db1.sessions, tty), Standardize(reported);
            && Inv(db1) && tty in db1.sessions && index in db1.history && index == db1.sessions[tty]
            && Update(db, tty, reported, isDir) ==
                 match ReportOf(db1, tty, reported)
                 case Rejected => (db1.(lastTouched := Some(index)), false)
                 case AlreadyThere => (db1.(lastTouched := Some(index)), true)
                 case MovesOn => (db1.(lastTouched := Some(index), sessions := db1.sessions[tty := index + 1]), true)
                 case Appends => (Prune(Appended(db1, tty, pwd), MAX_DIR_HISTORY_SIZE), true)
  {
    hide Inv, Prune, Ensure, Standardize, MaxIndex;
    EnsureInv(db, tty, isDir);
    var db1 := Ensure(db, tty, isDir);
    EntriesOf(db1);
    assert tty in db1.sessions && db1.sessions[tty] in db1.history;
  }

  /** Where the pointer stands after a report that was not rejected. */
  lemma ReportMeans(db: Db, tty: int, reported: string)
    requires Inv(db) && tty in db.instances
    ensures var index, pwd := db.sessions[tty], Standardize(reported);
            match ReportOf(db, tty, reported)
            case Rejected => true
            case AlreadyThere => index in db.history && db.history[index] == pwd
            case MovesOn => index + 1 in db.history && db.history[index + 1] == pwd
            case Appends => Stored(pwd)
  {
    hide Inv, Stored, Standardize;
    EntriesOf(db);
    var index := db.sessions[tty];
    assert index in db.history && IndexOf(db.sessions, tty) == index;
    StoredIsStandard(db.history, index);
    StoredIsStandard(db.history, index + 1);
    StandardizedIsStored(reported);
  }

  lemma UpdateInv(db: Db, tty: int, reported: string, isDir: IsDirectory)
    requires Inv(db)
    ensures Inv(Update(db, tty, reported, isDir).0)
  {
    hide Update, Prune, Ensure, Standardize, Stored, MaxIndex;
    EnsureInv(db, tty, isDir);
    UpdateIs(db, tty, reported, isDir);
    var db1 := Ensure(db, tty, isDir);
    ReportMeans(db1, tty, reported);
    if ReportOf(db1, tty, reported) == Appends {
      AppendedFits(db1, tty, Standardize(reported));
      PruneInv(Appended(db1, tty, Standardize(reported)));
    }
  }

  lemma ReportFailsIff(db: Db, tty: int, reported: string, isDir: IsDirectory)
    ensures !Update(db, tty, reported, isDir).1 <==> reported == "" || reported == "/"
  {
    hide Prune, Ensure, MaxIndex;
  }

  /** A report succeeds exactly if the directory is neither empty nor the root, and then the pointer of
      that tty names the reported directory. */
  lemma ReportedDirIsNamed(db: Db, tty: int, reported: string, isDir: IsDirectory)
    requires Inv(db)
    ensures var (db', ok) := Update(db, tty, reported, isDir);
            && (ok <==> reported != "" && reported != "/")
            && (ok ==> tty in db'.sessions && db'.sessions[tty] in db'.history
                       && db'.history[db'.sessions[tty]] == Standardize(reported))
  {
    hide Update, Prune, Ensure, Standardize, Stored, MaxIndex;
    ReportFailsIff(db, tty, reported, isDir);
    EnsureInv(db, tty, isDir);
    UpdateIs(db, tty, reported, isDir);
    var db1 := Ensure(db, tty, isDir);
    ReportMeans(db1, tty, reported);
    if ReportOf(db1, tty, reported) == Appends {
      AppendedFits(db1, tty, Standardize(reported));
      PruneKeepsPaths(Appended(db1, tty, Standardize(reported)), MAX_DIR_HISTORY_SIZE, tty);
    }
  }

  // ----- Navigating -----

  predicate LiveAt(h: History, isDir: IsDirectory, i: int)
  {
    i in h && isDir(h[i])
  }

  lemma LiveIff(h: History, isDir: IsDirectory, i: int)
    requires forall k | k in h :: Stored(h[k])
    ensures Live(isDir, Entry(h, i)) <==> LiveAt(h, isDir, i)
    ensures Live(isDir, Standardize(Entry(h, i))) <==> LiveAt(h, isDir, i)
  {
    StoredIsStandard(h, i);
    hide Standardize;
  }

  lemma {:induction false} LastLiveIs(h: History, isDir: IsDirectory, i: int, raw: bool)
    requires forall k | k in h :: Stored(h[k])
    ensures var r := LastLive(h, isDir, i, raw);
            && (r >= 0 ==> LiveAt(h, isDir, r))
            && forall k | 0 <= k <= i && k > r :: !LiveAt(h, isDir, k)
    decreases if i < 0 then 0 else i + 1
  {
    hide Standardize, Stored, Live, LiveAt, Entry;
    if i >= 0 {
      LiveIff(h, isDir, i);
      if LastLive(h, isDir, i, raw) != i {
        LastLiveIs(h, isDir, i - 1, raw);
      }
    }
  }

  lemma {:induction false} FirstLiveIs(h: History, isDir: IsDirectory, i: int, max: int)
    requires forall k | k in h :: Stored(h[k])
    requires 0 <= i
    ensures var r := FirstLive(h, isDir, i, max);
            && (r >= 0 ==> LiveAt(h, isDir, r))
            && forall k | i <= k <= max && (r == -1 || k < r) :: !LiveAt(h, isDir, k)
    decreases if i > max then 0 else max - i + 1
  {
    hide Standardize, Stored, Live, LiveAt, Entry;
    if i <= max {
      LiveIff(h, isDir, i);
      if FirstLive(h, isDir, i, max) != i {
        FirstLiveIs(h, isDir, i + 1, max);
      }
    }
  }

  lemma IndicesOf(db: Db, tty: int)
    requires Inv(db) && tty in db.instances
    ensures tty in db.sessions && db.sessions[tty] in db.history && db.sessions[tty] >= 0
    ensures forall i | i in db.history :: Stored(db.history[i]) && 0 <= i <= MaxIndex(db.history)
  {
    MaxIndexIs(db.history);
  }

  /** What the search upwards finds. */
  ghost predicate FoundAbove(h: History, isDir: IsDirectory, p: int, r: int)
  {
    && (r >= 0 ==> p < r && LiveAt(h, isDir, r))
    && forall k | p < k && k in h && (r < 0 || k < r) :: !LiveAt(h, isDir, k)
  }

  ghost predicate FoundBelow(h: History, isDir: IsDirectory, p: int, r: int)
  {
    && (r >= 0 ==> r < p && LiveAt(h, isDir, r))
    && forall k | k < p && k in h && (r < 0 || r < k) :: !LiveAt(h, isDir, k)
  }

  lemma SearchUp(db: Db, tty: int, isDir: IsDirectory)
    requires Inv(db) && tty in db.instances
    ensures tty in db.sessions && db.sessions[tty] in db.history && IndexOf(db.sessions, tty) == db.sessions[tty] >= 0
    ensures FoundAbove(db.history, isDir, db.sessions[tty], FirstLive(db.history, isDir, db.sessions[tty] + 1, MaxIndex(db.history)))
  {
    IndicesOf(db, tty);
    FirstLiveIs(db.history, isDir, db.sessions[tty] + 1, MaxIndex(db.history));
    hide Inv, FirstLive, MaxIndex, Stored, LiveAt;
  }

  lemma SearchDown(db: Db, tty: int, isDir: IsDirectory)
    requires Inv(db) && tty in db.instances
    ensures tty in db.sessions && db.sessions[tty] in db.history && IndexOf(db.sessions, tty) == db.sessions[tty] >= 0
    ensures FoundBelow(db.history, isDir, db.sessions[tty], LastLive(db.history, isDir, db.sessions[tty] - 1, false))
  {
    IndicesOf(db, tty);
    LastLiveIs(db.history, isDir, db.sessions[tty] - 1, false);
    hide Inv, LastLive, MaxIndex, Stored;
  }

  lemma ForwardOf(db: Db, tty: int, isDir: IsDirectory)
    requires tty in db.instances
    ensures var found := FirstLive(db.history, isDir, IndexOf(db.sessions, tty) + 1, MaxIndex(db.history));
            Forward(db, tty, isDir) == (if found >= 0 then db.(sessions := db.sessions[tty := found]) else db)
            && ForwardReply(db, tty, isDir) == Reply(db.history, found, END_REACHED)
  {
    hide FirstLive, MaxIndex, Create, IndexOf, Reply;
  }

  /** A step forward: the nearest existing directory above the pointer, or no change. */
  lemma ForwardIs(db: Db, tty: int, isDir: IsDirectory)
    requires Inv(db) && tty in db.instances
    ensures var p, p' := db.sessions[tty], Pointer(Forward(db, tty, isDir).sessions, tty);
            && Forward(db, tty, isDir) == db.(sessions := db.sessions[tty := p'])
            && p' in db.history && p <= p'
            && (forall k | p < k && k in db.history && (p' == p || k < p') :: !LiveAt(db.history, isDir, k))
            && (p' != p ==> LiveAt(db.history, isDir, p'))
  {
    SearchUp(db, tty, isDir);
    ForwardOf(db, tty, isDir);
    hide Inv, FirstLive, MaxIndex, Forward, ForwardReply, IndexOf, Reply;
    assert db.sessions[tty := db.sessions[tty]] == db.sessions;
  }

  /** The shell is told to change to the directory the pointer has moved to. */
  lemma ForwardReplyIs(db: Db, tty: int, isDir: IsDirectory)
    requires Inv(db) && tty in db.instances
    ensures var p, p' := db.sessions[tty], Pointer(Forward(db, tty, isDir).sessions, tty);
            p' in db.history
            && ForwardReply(db, tty, isDir) == (if p' != p then "cd " + db.history[p'] + "\n" else "echo \nEND OF HISTORY reached\n\n")
  {
    var found := FirstLive(db.history, isDir, db.sessions[tty] + 1, MaxIndex(db.history));
    SearchUp(db, tty, isDir);
    ReplyNames(db, found, END_REACHED);
    ForwardOf(db, tty, isDir);
    hide Inv, FirstLive, MaxIndex, Forward, ForwardReply, IndexOf, Reply;
  }

  lemma ReplyNames(db: Db, found: int, otherwise: string)
    requires Inv(db) && (found >= 0 ==> found in db.history)
    ensures Reply(db.history, found, otherwise) == if found >= 0 then "cd " + db.history[found] + "\n" else otherwise
  {
    StoredIsStandard(db.history, found);
    hide Standardize, Entry;
  }

  /** A step backward: the nearest existing directory below the pointer, or no change. */
  lemma BackwardIs(db: Db, tty: int, isDir: IsDirectory)
    requires Inv(db) && tty in db.instances
    ensures var p, p' := db.sessions[tty], Pointer(Backward(db, tty, isDir).sessions, tty);
            && Backward(db, tty, isDir) == db.(sessions := db.sessions[tty := p'])
            && p' in db.history && p' <= p
            && (forall k | k < p && k in db.history && (p' == p || p' < k) :: !LiveAt(db.history, isDir, k))
            && (p' != p ==> LiveAt(db.history, isDir, p'))
  {
    SearchDown(db, tty, isDir);
    hide Inv, LastLive, MaxIndex, Create, IndexOf;
    assert db.sessions[tty := db.sessions[tty]] == db.sessions;
  }

  lemma BackwardReplyIs(db: Db, tty: int, isDir: IsDirectory)
    requires Inv(db) && tty in db.instances
    ensures var p, p' := db.sessions[tty], Pointer(Backward(db, tty, isDir).sessions, tty);
            p' in db.history
            && BackwardReply(db, tty, isDir) == (if p' != p then "cd " + db.history[p'] + "\n" else "echo \nBEGINNING OF HISTORY reached\n\n")
  {
    var found := LastLive(db.history, isDir, db.sessions[tty] - 1, false);
    SearchDown(db, tty, isDir);
    ReplyNames(db, found, BEGINNING_REACHED);
    hide Inv, LastLive, MaxIndex, Create, IndexOf, Reply;
  }

  lemma ForwardInv(db: Db, tty: int, isDir: IsDirectory)
    requires Inv(db)
    ensures Inv(Forward(db, tty, isDir))
  {
    hide Inv, FirstLive, MaxIndex, Create;
    EnsureInv(db, tty, isDir);
    var db1 := Ensure(db, tty, isDir);
    hide Ensure;
    EntriesOf(db1);
    assert Forward(db, tty, isDir) == Forward(db1, tty, isDir) by { EnsureTwice(db, tty, isDir); }
    ForwardIs(db1, tty, isDir);
    PointInv(db1, tty, Pointer(Forward(db1, tty, isDir).sessions, tty));
  }

  lemma EnsureTwice(db: Db, tty: int, isDir: IsDirectory)
    requires tty in Ensure(db, tty, isDir).instances
    ensures Ensure(Ensure(db, tty, isDir), tty, isDir) == Ensure(db, tty, isDir)
  {
  }

  lemma BackwardInv(db: Db, tty: int, isDir: IsDirectory)
    requires Inv(db)
    ensures Inv(Backward(db, tty, isDir))
  {
    hide Inv, LastLive, Create;
    EnsureInv(db, tty, isDir);
    var db1 := Ensure(db, tty, isDir);
    hide Ensure;
    EntriesOf(db1);
    assert Backward(db, tty, isDir) == Backward(db1, tty, isDir) by { EnsureTwice(db, tty, isDir); }
    BackwardIs(db1, tty, isDir);
    PointInv(db1, tty, Pointer(Backward(db1, tty, isDir).sessions, tty));
  }

  /** A step forward that moves, then a step backward, restores everything exactly when the
      directory it started from exists. */
  lemma ForwardThenBackwardIff(db: Db, tty: int, isDir: IsDirectory)
    requires Inv(db) && tty in db.instances
    requires Forward(db, tty, isDir) != db
    ensures Backward(Forward(db, tty, isDir), tty, isDir) == db <==> LiveAt(db.history, isDir, db.sessions[tty])
  {
    hide Inv, Forward, Backward, LiveAt;
    var db1 := Forward(db, tty, isDir);
    IndicesOf(db, tty);
    ForwardIs(db, tty, isDir);
    ForwardInv(db, tty, isDir);
    BackwardIs(db1, tty, isDir);
    var p, p1 := db.sessions[tty], db1.sessions[tty];
    assert p in db.history;
    assert db.sessions[tty := p] == db.sessions;
    assert db1.sessions[tty := p] == db.sessions;
  }

  lemma BackwardThenForwardIff(db: Db, tty: int, isDir: IsDirectory)
    requires Inv(db) && tty in db.instances
    requires Backward(db, tty, isDir) != db
    ensures Forward(Backward(db, tty, isDir), tty, isDir) == db <==> LiveAt(db.history, isDir, db.sessions[tty])
  {
    hide Inv, Forward, Backward, LiveAt;
    var db1 := Backward(db, tty, isDir);
    IndicesOf(db, tty);
    BackwardIs(db, tty, isDir);
    BackwardInv(db, tty, isDir);
    ForwardIs(db1, tty, isDir);
    var p, p1 := db.sessions[tty], db1.sessions[tty];
    assert p in db.history;
    assert db.sessions[tty := p] == db.sessions;
    assert db1.sessions[tty := p] == db.sessions;
  }

  /** The existing directories above `p`, in ascending order. */
  function LiveAbove(h: History, isDir: IsDirectory, p: int, max: int): seq<int>
    decreases if p >= max then 0 else max - p
  {
    if p >= max then []
    else if LiveAt(h, isDir, p + 1) then [p + 1] + LiveAbove(h, isDir, p + 1, max)
    else LiveAbove(h, isDir, p + 1, max)
  }

  ghost function ForwardTimes(db: Db, tty: int, isDir: IsDirectory, n: nat): Db
    decreases n
  {
    if n == 0 then db else ForwardTimes(Forward(db, tty, isDir), tty, isDir, n - 1)
  }

  lemma {:induction false} LiveAboveSkips(h: History, isDir: IsDirectory, p: int, q: int, max: int)
    requires p < q <= max && LiveAt(h, isDir, q)
    requires forall k | p < k < q :: !LiveAt(h, isDir, k)
    ensures LiveAbove(h, isDir, p, max) == [q] + LiveAbove(h, isDir, q, max)
    decreases q - p
  {
    if p + 1 < q {
      LiveAboveSkips(h, isDir, p + 1, q, max);
    }
  }

  lemma {:induction false} NoneAbove(h: History, isDir: IsDirectory, p: int, max: int)
    requires forall k | p < k <= max :: !LiveAt(h, isDir, k)
    ensures LiveAbove(h, isDir, p, max) == []
    decreases if p >= max then 0 else max - p
  {
    if p < max {
      NoneAbove(h, isDir, p + 1, max);
    }
  }

  /** Repeated steps forward visit the existing directories above the pointer one after the other,
      in ascending order, and then stay at the last one; nothing but this pointer changes. */
  lemma {:induction false} ForwardVisits(db: Db, tty: int, isDir: IsDirectory, n: nat)
    requires Inv(db) && tty in db.instances
    ensures var p := db.sessions[tty];
            var stops := [p] + LiveAbove(db.history, isDir, p, |db.history| - 1);
            ForwardTimes(db, tty, isDir, n)
              == db.(sessions := db.sessions[tty := stops[if n < |stops| then n else |stops| - 1]])
    decreases n
  {
    hide Inv, Forward, LiveAt;
    EntriesOf(db);
    var p, max := db.sessions[tty], |db.history| - 1;
    assert tty in db.sessions && p in db.history;
    if n == 0 {
      assert db.sessions[tty := p] == db.sessions;
    } else {
      var db1 := Forward(db, tty, isDir);
      ForwardIs(db, tty, isDir);
      ForwardInv(db, tty, isDir);
      ForwardVisits(db1, tty, isDir, n - 1);
      var p1 := db1.sessions[tty];
      if p1 == p {
        NoneAbove(db.history, isDir, p, max);
      } else {
        LiveAboveSkips(db.history, isDir, p, p1, max);
      }
    }
  }

  // ----- Runs -----

  lemma PerformInv(db: Db, c: Command, isDir: IsDirectory)
    requires Inv(db)
    ensures Inv(Perform(db, c, isDir))
  {
    match c
    case OpenTty(tty) => OpenInv(db, tty, isDir);
    case CloseTty(tty) => CloseInv(db, tty);
    case ReportDir(tty, dir) => UpdateInv(db, tty, dir, isDir);
    case CdForward(tty) => ForwardInv(db, tty, isDir);
    case CdBackward(tty) => BackwardInv(db, tty, isDir);
  }

  /** Over every run of commands on any number of ttys, starting from empty tables and with a file
      system that may change at every step, the invariant holds. */
  lemma {:induction false} ReachableInv(cs: seq<(Command, IsDirectory)>)
    ensures Inv(Run(Db(map[], map[], None, []), cs))
  {
    if cs == [] {
    } else {
      ReachableInv(cs[..|cs| - 1]);
      PerformInv(Run(Db(map[], map[], None, []), cs[..|cs| - 1]), cs[|cs| - 1].0, cs[|cs| - 1].1);
    }
  }
}
