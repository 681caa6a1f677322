/** What the commands of one tty do to the others, and what a shell is told on opening. */
module DirSharing {
  import opened Collections
  import opened DirHistory
  import opened DirNavigation

  // ----- Creating a terminal -----

  /** Where a new terminal starts to look, in a history that is not empty. */
  ghost function StartOf(db: Db): int
  {
    if db.lastTouched.Some? && db.lastTouched.value >= 0 then db.lastTouched.value else MaxIndex(db.history)
  }

  /** Does registering the tty overwrite entry `i`? A new terminal that finds no existing directory
      at or below its start puts the default directory over the newest entry, wherever it started. */
  ghost predicate Overwrites(db: Db, tty: int, isDir: IsDirectory, i: int)
    requires i in db.history
  {
    && tty !in db.instances
    && LastLive(db.history, isDir, StartOf(db), true) < 0
    && i == MaxIndex(db.history) && db.history[i] != DEFAULT_DIR
  }

  lemma CreateIs(db: Db, tty: int, isDir: IsDirectory)
    requires Inv(db) && db.history != map[]
    ensures var found, last := LastLive(db.history, isDir, StartOf(db), true), MaxIndex(db.history);
            && last in db.history && last == |db.history| - 1
            && Create(db, tty, isDir) ==
                 if found >= 0 then db.(instances := db.instances + [tty], sessions := db.sessions[tty := found])
                 else db.(instances := db.instances + [tty], history := db.history[last := DEFAULT_DIR],
                          sessions := db.sessions[tty := last])
  {
    EntriesOf(db);
    MaxIndexIs(db.history);
    DefaultIsStored();
    assert |db.history| > 0 && |db.history| - 1 in db.history;
    hide Inv, LastLive, MaxIndex, Standardize, Contiguous;
  }

  /** Registering a tty moves no other pointer, and keeps the path behind it exactly if it does not
      overwrite that entry. */
  lemma EnsureKeepsOthersIff(db: Db, tty: int, isDir: IsDirectory, other: int)
    requires Inv(db) && other != tty && other in db.sessions
    ensures var db1, p := Ensure(db, tty, isDir), db.sessions[other];
            && p in db.history && p in db1.history && |db1.history| == |db.history|
            && other in db1.sessions && db1.sessions[other] == p
            && (db1.history[p] == db.history[p] <==> !Overwrites(db, tty, isDir, p))
            && (p != MaxIndex(db.history) ==> db1.history[p] == db.history[p])
  {
    EntriesOf(db);
    assert db.sessions[other] in db.history;
    hide Inv, LastLive, MaxIndex, Contiguous, Create;
    if tty !in db.instances {
      CreateIs(db, tty, isDir);
      OverwriteContiguous(db.history, MaxIndex(db.history), DEFAULT_DIR);
    }
  }

  // ----- The commands -----

  /** Opening and navigating move no other pointer, and keep the path behind it exactly if the tty's
      registration does not overwrite that entry. */
  lemma OthersKeepTheirPathIff(db: Db, c: Command, isDir: IsDirectory, other: int)
    requires Inv(db) && (c.OpenTty? || c.CdForward? || c.CdBackward?) && other != c.tty && other in db.sessions
    ensures var db', p := Perform(db, c, isDir), db.sessions[other];
            && other in db'.sessions && db'.sessions[other] == p && p in db'.history
            && (db'.history[p] == db.history[p] <==> !Overwrites(db, c.tty, isDir, p))
  {
    hide Inv, LastLive, FirstLive, MaxIndex, Ensure, Overwrites, Standardize;
    EnsureInv(db, c.tty, isDir);
    EnsureKeepsOthersIff(db, c.tty, isDir, other);
    var db1 := Ensure(db, c.tty, isDir);
    EntriesOf(db1);
    var index := db1.sessions[c.tty];
    assert index in db1.history && Standardize(Entry(db1.history, index)) == db1.history[index];
    assert Pointer(db1.sessions, c.tty) == index >= 0;
    assert db1.history[index] != "/";
  }

  /** Is entry `p` the one that a report pushes out, by a different one? */
  ghost predicate PushesOut(db: Db, tty: int, reported: string, isDir: IsDirectory, p: int)
    requires p in db.history
  {
    && p == 0 && |db.history| == MAX_DIR_HISTORY_SIZE
    && ReportOf(Ensure(db, tty, isDir), tty, reported) == Appends
    && Entry(Ensure(db, tty, isDir).history, 1) != db.history[0]
  }

  /** A report by one tty, registered or not, keeps the path behind every other pointer exactly if
      neither its registration overwrites that entry nor the report pushes it out. */
  lemma ReportKeepsOthersIff(db: Db, tty: int, reported: string, isDir: IsDirectory, other: int)
    requires Inv(db) && other != tty && other in db.sessions
    ensures var db', p := Update(db, tty, reported, isDir).0, db.sessions[other];
            && p in db.history && other in db'.sessions && db'.sessions[other] in db'.history
            && (db'.history[db'.sessions[other]] == db.history[p] <==>
                  !Overwrites(db, tty, isDir, p) && !PushesOut(db, tty, reported, isDir, p))
  {
    hide Update, Prune, Ensure, Standardize, Stored, MaxIndex, Overwrites, ReportOf;
    EnsureInv(db, tty, isDir);
    EnsureKeepsOthersIff(db, tty, isDir, other);
    UpdateIs(db, tty, reported, isDir);
    var db1 := Ensure(db, tty, isDir);
    EntriesOf(db);
    EntriesOf(db1);
    MaxIndexIs(db.history);
    assert |db1.history| == MAX_DIR_HISTORY_SIZE ==> 1 in db1.history;
    ReportMeans(db1, tty, reported);
    if ReportOf(db1, tty, reported) == Appends {
      AppendedFits(db1, tty, Standardize(reported));
      PruneKeepsPaths(Appended(db1, tty, Standardize(reported)), MAX_DIR_HISTORY_SIZE, other);
    }
  }

  ghost function TwoEntries(): Db
  {
    Db(map[0 := "/a/", 1 := "/b/"], map[1 := 1], Some(0), [1])
  }

  lemma TwoEntriesInv()
    ensures Inv(TwoEntries()) && |TwoEntries().history| == 2 && MaxIndex(TwoEntries().history) == 1
  {
    var h := TwoEntries().history;
    assert h.Keys == {0, 1};
    assert |h| == |h.Keys| == 2;
    MaxIndexIs(h);
  }

  lemma FirstEntryIsDead(isDir: IsDirectory)
    requires !isDir("/a/")
    ensures LastLive(TwoEntries().history, isDir, 0, true) == -1
  {
    assert LastLive(TwoEntries().history, isDir, -1, true) == -1;
  }

  lemma NewTtyOverwrites(isDir: IsDirectory)
    requires !isDir("/a/")
    ensures Ensure(TwoEntries(), 2, isDir) == Db(map[0 := "/a/", 1 := DEFAULT_DIR], map[1 := 1, 2 := 1], Some(0), [1, 2])
  {
    TwoEntriesInv();
    FirstEntryIsDead(isDir);
    hide LastLive, MaxIndex, Create, Inv;
    CreateIs(TwoEntries(), 2, isDir);
  }

  lemma ReportOfNewDir(db: Db)
    requires db == Db(map[0 := "/a/", 1 := DEFAULT_DIR], map[1 := 1, 2 := 1], Some(0), [1, 2])
    ensures Standardize("/c/") == "/c/" && Stored("/c/") && ReportOf(db, 2, "/c/") == Appends
  {
    DefaultIsStored();
    assert DEFAULT_DIR != "/c/" && Entry(db.history, 2) == "";
  }

  /** History /a/, /b/, of which only /b/ exists; tty 1 is at /b/, and /a/ was touched last. Tty 2, of
      which nothing is known, reports /c/: tty 1 is left at the default directory. */
  lemma ReportOverwritesAnother(isDir: IsDirectory)
    requires !isDir("/a/") && isDir("/b/")
    ensures var db' := Update(TwoEntries(), 2, "/c/", isDir).0;
            && Inv(TwoEntries()) && TwoEntries().sessions[1] == 1 && TwoEntries().history[1] == "/b/"
            && 1 in db'.sessions && 1 in db'.history && db'.sessions[1] == 1 && db'.history[1] == "/opt/automateLinux/"
  {
    TwoEntriesInv();
    NewTtyOverwrites(isDir);
    hide LastLive, MaxIndex, Ensure, Prune, Standardize, Stored, Inv, Contiguous, ReportOf, Update;
    var db1 := Ensure(TwoEntries(), 2, isDir);
    ReportOfNewDir(db1);
    EnsureKeepsOthersIff(TwoEntries(), 2, isDir, 1);
    UpdateIs(TwoEntries(), 2, "/c/", isDir);
    AppendedFits(db1, 2, "/c/");
    PruneIs(Appended(db1, 2, "/c/"), MAX_DIR_HISTORY_SIZE);
  }

  // ----- What a shell is told on opening -----

  lemma OpenOf(db: Db, tty: int, isDir: IsDirectory)
    requires Inv(db)
    ensures var db1 := Ensure(db, tty, isDir);
            && Inv(db1) && tty in db1.sessions && db1.sessions[tty] in db1.history && 0 in db1.history
            && var h, p := db1.history, db1.sessions[tty];
               var found := LastLive(h, isDir, p - 1, false);
               && p >= 0 && (found >= 0 ==> found in h)
               && Open(db, tty, isDir) ==
                    if isDir(h[p]) then (db1, h[p])
                    else if found >= 0 then (db1.(sessions := db1.sessions[tty := found]), h[found])
                    else (db1.(sessions := db1.sessions[tty := 0]), DEFAULT_DIR)
  {
    hide Inv, MaxIndex, Ensure, Contiguous, Stored, LastLive, Standardize, Entry;
    EnsureInv(db, tty, isDir);
    var db1 := Ensure(db, tty, isDir);
    EntriesOf(db1);
    var p := db1.sessions[tty];
    var found := LastLive(db1.history, isDir, p - 1, false);
    ZeroIn(db1, p);
    SearchDown(db1, tty, isDir);
    StoredIsStandard(db1.history, p);
    StoredIsStandard(db1.history, found);
    DefaultIsStored();
  }

  lemma ZeroIn(db: Db, i: int)
    requires Inv(db) && i in db.history
    ensures 0 in db.history && 0 <= i && db.history[i] != "/" && db.history[i] != ""
  {
  }

  lemma LastLiveStep(h: History, isDir: IsDirectory, p: int)
    requires forall k | k in h :: Stored(h[k])
    requires p in h && p >= 0
    ensures LastLive(h, isDir, p, false) == if isDir(h[p]) then p else LastLive(h, isDir, p - 1, false)
  {
    LiveIff(h, isDir, p);
    hide Live, Standardize, Stored;
  }

  /** On opening, the directory answered is the one at the tty's index exactly if some entry at or
      below it exists as a directory, or the oldest entry is the default directory. */
  lemma OpenAnswersPointerIff(db: Db, tty: int, isDir: IsDirectory)
    requires Inv(db)
    ensures var (db', answer), db1 := Open(db, tty, isDir), Ensure(db, tty, isDir);
            && tty in db1.sessions && 0 in db1.history
            && tty in db'.sessions && db'.sessions[tty] in db'.history && db'.history == db1.history
            && (answer == db'.history[db'.sessions[tty]] <==>
                  LastLive(db1.history, isDir, db1.sessions[tty], false) >= 0 || db1.history[0] == DEFAULT_DIR)
  {
    hide Inv, Ensure, Open, LastLive, Stored;
    OpenOf(db, tty, isDir);
    var db1 := Ensure(db, tty, isDir);
    EntriesOf(db1);
    LastLiveStep(db1.history, isDir, db1.sessions[tty]);
  }

  ghost function OneEntry(): Db
  {
    Db(map[0 := "/a/"], map[1 := 0], Some(0), [1])
  }

  /** The only entry is gone: the shell is told the default directory, and the pointer stays. */
  lemma OpenAnswersElsewhere(isDir: IsDirectory)
    requires !isDir("/a/")
    ensures Inv(OneEntry()) && Open(OneEntry(), 1, isDir) == (OneEntry(), "/opt/automateLinux/")
  {
    var db := OneEntry();
    assert db.history.Keys == {0} && |db.history| == |db.history.Keys| == 1;
    assert Inv(db);
    hide Inv, Contiguous;
    OpenOf(db, 1, isDir);
    assert LastLive(db.history, isDir, -1, false) == -1;
    hide LastLive, Open;
    assert db.sessions[1 := 0] == db.sessions;
  }
}
