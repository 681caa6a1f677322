/** The shared directory history: one indexed list, a pointer into it for every tty. */
module DirHistory {
  import opened Collections

  const MAX_DIR_HISTORY_SIZE: nat := 500
  const DEFAULT_DIR: string := "/opt/automateLinux/"

  type History = map<int, string>
  type Sessions = map<int, int>

  /** The tables and the list of live terminals. `lastTouched` is the setting
      indexOfLastTouchedDir as far as it can be read as a number. */
  datatype Db = Db(history: History, sessions: Sessions, lastTouched: Option<int>, instances: seq<int>)

  /** std::filesystem::is_directory, at the time of one command. */
  type IsDirectory = string -> bool

  function Standardize(path: string): string
  {
    if path == "" then "/" else if path[|path| - 1] != '/' then path + "/" else path
  }

  /** A missing row reads as the empty string. */
  function Entry(h: History, i: int): string
  {
    if i in h then h[i] else ""
  }

  ghost function MaxIndex(h: History): int
  {
    if h == map[] then -1 else Greatest(h.Keys)
  }

  function Pointer(s: Sessions, tty: int): int
  {
    if tty in s then s[tty] else -1
  }

  function IndexOf(s: Sessions, tty: int): int
  {
    if Pointer(s, tty) >= 0 then Pointer(s, tty) else 0
  }

  predicate Live(isDir: IsDirectory, dir: string)
  {
    dir != "" && dir != "/" && isDir(dir)
  }

  /** The greatest index in 0..i whose entry exists as a directory, or -1. The constructor looks
      at entries as they are, everything else at standardized ones. */
  function LastLive(h: History, isDir: IsDirectory, i: int, raw: bool): (r: int)
    ensures -1 <= r && (r >= 0 ==> r <= i)
    decreases if i < 0 then 0 else i + 1
  {
    if i < 0 then -1
    else if Live(isDir, if raw then Entry(h, i) else Standardize(Entry(h, i))) then i
    else LastLive(h, isDir, i - 1, raw)
  }

  /** The least index in i..max whose entry exists as a directory, or -1. */
  function FirstLive(h: History, isDir: IsDirectory, i: int, max: int): (r: int)
    ensures r == -1 || i <= r <= max
    decreases if i > max then 0 else max - i + 1
  {
    if i > max then -1
    else if Live(isDir, Standardize(Entry(h, i))) then i
    else FirstLive(h, isDir, i + 1, max)
  }

  // ----- Pruning -----

  function Keep(h: History, cutoff: int): History
  {
    map i | i in h && i >= cutoff :: h[i]
  }

  function Shift(h: History, d: int): History
  {
    map j | j in Lowered(h.Keys, d) :: h[j + d]
  }

  function Lowered(indices: set<int>, d: int): (lower: set<int>)
    ensures forall j | j in lower :: j + d in indices
  {
    set i | i in indices :: i - d
  }

  lemma ShiftAt(h: History, d: int, j: int)
    ensures j in Shift(h, d) <==> j + d in h
    ensures j in Shift(h, d) ==> Shift(h, d)[j] == h[j + d]
  {
    if j + d in h {
      assert (j + d) - d in Lowered(h.Keys, d);
    }
  }

  function ClampAt0(i: int): int
  {
    if i < 0 then 0 else i
  }

  function ShiftSessions(s: Sessions, d: int): Sessions
  {
    map t | t in s :: ClampAt0(s[t] - d)
  }

  ghost function Prune(db: Db, maxSize: nat): Db
  {
    if |db.history| <= maxSize then db else
    var cutoff := Smallest(db.history.Keys) + (|db.history| - maxSize);
    var kept := Keep(db.history, cutoff);
    var newMin := if kept == map[] then 0 else Smallest(kept.Keys);
    if newMin <= 0 then db.(history := kept) else
    db.(history := Shift(kept, newMin), sessions := ShiftSessions(db.sessions, newMin),
        lastTouched := if db.lastTouched.Some? then Some(ClampAt0(db.lastTouched.value - newMin)) else None)
  }

  // ----- Commands -----

  /** The constructor: where a new terminal starts. */
  ghost function Create(db: Db, tty: int, isDir: IsDirectory): Db
  {
    var db1 := db.(instances := db.instances + [tty]);
    var touched := if db.lastTouched.Some? then db.lastTouched.value else -1;
    var start := if touched < 0 then MaxIndex(db.history) else touched;
    var db2 := if start < 0 then db1.(history := db1.history[0 := Standardize(DEFAULT_DIR)]) else db1;
    var found := LastLive(db2.history, isDir, if start < 0 then 0 else start, true);
    if found >= 0 then db2.(sessions := db2.sessions[tty := found]) else
    var last := ClampAt0(MaxIndex(db2.history));
    db2.(history := db2.history[last := Standardize(DEFAULT_DIR)], sessions := db2.sessions[tty := last])
  }

  ghost function Ensure(db: Db, tty: int, isDir: IsDirectory): Db
  {
    if tty in db.instances then db else Create(db, tty, isDir)
  }

  /** Opening a tty: the new tables, and the directory to change to. */
  ghost function Open(db: Db, tty: int, isDir: IsDirectory): (Db, string)
  {
    var db1 := Ensure(db, tty, isDir);
    var pointer := Pointer(db1.sessions, tty);
    var index := ClampAt0(pointer);
    var db2 := if pointer < 0 then db1.(sessions := db1.sessions[tty := 0], history := db1.history[0 := Standardize(DEFAULT_DIR)])
               else db1;
    var dir := Standardize(Entry(db2.history, index));
    if dir == "/" then (db2.(history := db2.history[index := Standardize(DEFAULT_DIR)]), Standardize(DEFAULT_DIR))
    else if isDir(dir) then (db2, dir)
    else
      var found := LastLive(db2.history, isDir, index - 1, false);
      if found >= 0 then (db2.(sessions := db2.sessions[tty := found]), Standardize(Entry(db2.history, found)))
      else (db2.(sessions := db2.sessions[tty := 0]), Standardize(DEFAULT_DIR))
  }

  function Without(ttys: seq<int>, tty: int): seq<int>
  {
    if ttys == [] then [] else if ttys[0] == tty then ttys[1..] else [ttys[0]] + Without(ttys[1..], tty)
  }

  /** Closing a tty fails if there is no such terminal. */
  function Close(db: Db, tty: int): (Db, bool)
  {
    if tty !in db.instances then (db, false)
    else (db.(instances := Without(db.instances, tty), sessions := db.sessions - {tty}), true)
  }

  /** A shell reports its directory; fails if that is empty or the root. */
  ghost function Update(db: Db, tty: int, reported: string, isDir: IsDirectory): (Db, bool)
  {
    var db1 := Ensure(db, tty, isDir);
    var index := IndexOf(db1.sessions, tty);
    var pwd := Standardize(reported);
    var db2 := db1.(lastTouched := Some(index));
    if pwd == "/" then (db2, false)
    else if Standardize(Entry(db1.history, index)) == pwd then (db2, true)
    else if Standardize(Entry(db1.history, index + 1)) == pwd then
      (db2.(sessions := db2.sessions[tty := index + 1]), true)
    else
      var at := MaxIndex(db1.history) + 1;
      (Prune(db2.(history := db2.history[at := pwd], sessions := db2.sessions[tty := at], lastTouched := Some(at)),
             MAX_DIR_HISTORY_SIZE), true)
  }

  ghost function Forward(db: Db, tty: int, isDir: IsDirectory): Db
  {
    var db1 := Ensure(db, tty, isDir);
    var found := FirstLive(db1.history, isDir, IndexOf(db1.sessions, tty) + 1, MaxIndex(db1.history));
    if found >= 0 then db1.(sessions := db1.sessions[tty := found]) else db1
  }

  const END_REACHED: string := "echo \nEND OF HISTORY reached\n\n"
  const BEGINNING_REACHED: string := "echo \nBEGINNING OF HISTORY reached\n\n"

  /** What the shell is told: to change directory, or that there is nowhere to go. */
  function Reply(h: History, found: int, otherwise: string): string
  {
    if found >= 0 then "cd " + Standardize(Entry(h, found)) + "\n" else otherwise
  }

  ghost function ForwardReply(db: Db, tty: int, isDir: IsDirectory): string
  {
    var db1 := Ensure(db, tty, isDir);
    Reply(db1.history, FirstLive(db1.history, isDir, IndexOf(db1.sessions, tty) + 1, MaxIndex(db1.history)), END_REACHED)
  }

  ghost function BackwardReply(db: Db, tty: int, isDir: IsDirectory): string
  {
    var db1 := Ensure(db, tty, isDir);
    Reply(db1.history, LastLive(db1.history, isDir, IndexOf(db1.sessions, tty) - 1, false), BEGINNING_REACHED)
  }

  ghost function Backward(db: Db, tty: int, isDir: IsDirectory): Db
  {
    var db1 := Ensure(db, tty, isDir);
    var found := LastLive(db1.history, isDir, IndexOf(db1.sessions, tty) - 1, false);
    if found >= 0 then db1.(sessions := db1.sessions[tty := found]) else db1
  }

  datatype Command =
    | OpenTty(tty: int)
    | CloseTty(tty: int)
    | ReportDir(tty: int, dir: string)
    | CdForward(tty: int)
    | CdBackward(tty: int)

  ghost function Perform(db: Db, c: Command, isDir: IsDirectory): Db
  {
    match c
    case OpenTty(tty) => Open(db, tty, isDir).0
    case CloseTty(tty) => Close(db, tty).0
    case ReportDir(tty, dir) => Update(db, tty, dir, isDir).0
    case CdForward(tty) => Forward(db, tty, isDir)
    case CdBackward(tty) => Backward(db, tty, isDir)
  }

  /** A run of commands; the file system may change from one to the next. */
  ghost function Run(db: Db, cs: seq<(Command, IsDirectory)>): Db
  {
    if cs == [] then db else Perform(Run(db, cs[..|cs| - 1]), cs[|cs| - 1].0, cs[|cs| - 1].1)
  }

  // ----- The invariant -----

  predicate Stored(path: string)
  {
    path != "" && path[|path| - 1] == '/' && path != "/"
  }

  /** The indices are exactly 0..n-1. */
  ghost predicate Contiguous(h: History)
  {
    forall i :: i in h <==> 0 <= i < |h|
  }

  ghost predicate InvButSize(db: Db)
  {
    && Contiguous(db.history)
    && (forall i | i in db.history :: Stored(db.history[i]))
    && (forall t | t in db.sessions :: db.sessions[t] in db.history)
    && (db.lastTouched.Some? ==> db.lastTouched.value in db.history)
    && (forall j, k | 0 <= j < k < |db.instances| :: db.instances[j] != db.instances[k])
    && (forall t | t in db.instances :: t in db.sessions)
  }

  /** At most 500 entries at 0..n-1, all of them standardized and none the root; every pointer and the
      last touched index name an entry; every live terminal is listed once and has a pointer. */
  ghost predicate Inv(db: Db)
  {
    InvButSize(db) && |db.history| <= MAX_DIR_HISTORY_SIZE
  }

  lemma MaxIndexIs(h: History)
    requires Contiguous(h)
    ensures MaxIndex(h) == |h| - 1
  {
    if h != map[] {
      assert |h.Keys| == |h|;
      assert |h| - 1 in h;
    }
  }

  lemma AppendContiguous(h: History, path: string)
    requires Contiguous(h)
    ensures Contiguous(h[|h| := path]) && |h[|h| := path]| == |h| + 1
  {
    var h' := h[|h| := path];
    assert h'.Keys == h.Keys + {|h|};
    assert |h'| == |h'.Keys| && |h| == |h.Keys|;
  }

  lemma OverwriteContiguous(h: History, i: int, path: string)
    requires Contiguous(h) && i in h
    ensures Contiguous(h[i := path]) && |h[i := path]| == |h|
  {
    assert h[i := path].Keys == h.Keys;
    assert |h[i := path]| == |h[i := path].Keys| && |h| == |h.Keys|;
  }

  lemma PutContiguous(h: History, i: int, path: string)
    requires Contiguous(h) && 0 <= i <= |h|
    ensures Contiguous(h[i := path])
    ensures |h[i := path]| == if i == |h| then |h| + 1 else |h|
  {
    if i == |h| {
      AppendContiguous(h, path);
    } else {
      OverwriteContiguous(h, i, path);
    }
  }

  lemma DefaultIsStored()
    ensures Standardize(DEFAULT_DIR) == DEFAULT_DIR && Stored(DEFAULT_DIR)
  {
  }

  /** Moving a pointer to an existing entry. */
  lemma PointInv(db: Db, tty: int, i: int)
    requires Inv(db) && i in db.history
    ensures Inv(db.(sessions := db.sessions[tty := i]))
  {
    hide Stored, Contiguous;
  }

  /** Writing a path to an existing entry, or behind the last one if there is room. */
  lemma PutInv(db: Db, i: int, path: string)
    requires Inv(db) && 0 <= i <= |db.history| && Stored(path)
    requires i < |db.history| || |db.history| < MAX_DIR_HISTORY_SIZE
    ensures Inv(db.(history := db.history[i := path]))
  {
    hide Stored;
    PutContiguous(db.history, i, path);
  }

  lemma AddInstanceInv(db: Db, tty: int)
    requires Inv(db) && tty !in db.instances && tty in db.sessions
    ensures Inv(db.(instances := db.instances + [tty]))
  {
    hide Stored, Contiguous;
  }

  lemma CreateInv(db: Db, tty: int, isDir: IsDirectory)
    requires Inv(db) && tty !in db.instances
    ensures Inv(Create(db, tty, isDir)) && tty in Create(db, tty, isDir).instances
  {
    hide Inv, Stored, Live;
    assert Contiguous(db.history) && (db.lastTouched.Some? ==> db.lastTouched.value in db.history) by { EntriesOf(db); }
    MaxIndexIs(db.history);
    DefaultIsStored();
    var touched := if db.lastTouched.Some? then db.lastTouched.value else -1;
    var start := if touched < 0 then MaxIndex(db.history) else touched;
    var db2 := if start < 0 then db.(history := db.history[0 := DEFAULT_DIR]) else db;
    if start < 0 {
      PutInv(db, 0, DEFAULT_DIR);
      PutContiguous(db.history, 0, DEFAULT_DIR);
    }
    var h := db2.history;
    assert Inv(db2) && Contiguous(h) && |h| > 0;
    MaxIndexIs(h);
    var found := LastLive(h, isDir, if start < 0 then 0 else start, true);
    var at := if found >= 0 then found else |h| - 1;
    var db3 := if found >= 0 then db2 else db2.(history := h[at := DEFAULT_DIR]);
    if found < 0 {
      PutInv(db2, at, DEFAULT_DIR);
    }
    assert at in db3.history;
    PointInv(db3, tty, at);
    AddInstanceInv(db3.(sessions := db3.sessions[tty := at]), tty);
  }

  lemma EntriesOf(db: Db)
    requires Inv(db)
    ensures Contiguous(db.history) && |db.history| <= MAX_DIR_HISTORY_SIZE
    ensures db.lastTouched.Some? ==> db.lastTouched.value in db.history
    ensures forall i | i in db.history :: Stored(db.history[i]) && Standardize(db.history[i]) == db.history[i]
    ensures forall t | t in db.instances :: t in db.sessions
    ensures forall t | t in db.sessions :: db.sessions[t] in db.history
  {
  }

  lemma EnsureInv(db: Db, tty: int, isDir: IsDirectory)
    requires Inv(db)
    ensures Inv(Ensure(db, tty, isDir)) && tty in Ensure(db, tty, isDir).instances
  {
    hide Inv, Create;
    if tty !in db.instances {
      CreateInv(db, tty, isDir);
    }
  }

  lemma OpenInv(db: Db, tty: int, isDir: IsDirectory)
    requires Inv(db)
    ensures Inv(Open(db, tty, isDir).0)
  {
    hide Inv, Ensure, Live, Standardize;
    EnsureInv(db, tty, isDir);
    var db1 := Ensure(db, tty, isDir);
    EntriesOf(db1);
    var index := db1.sessions[tty];
    assert index in db1.history && Pointer(db1.sessions, tty) == index >= 0;
    assert Standardize(Entry(db1.history, index)) == db1.history[index] != "/";
    var found := LastLive(db1.history, isDir, index - 1, false);
    PointInv(db1, tty, if found >= 0 then found else 0);
  }

  lemma {:induction false} WithoutMember(ttys: seq<int>, tty: int)
    requires forall j, k | 0 <= j < k < |ttys| :: ttys[j] != ttys[k]
    ensures forall t :: t in Without(ttys, tty) <==> t in ttys && t != tty
    ensures forall j, k | 0 <= j < k < |Without(ttys, tty)| :: Without(ttys, tty)[j] != Without(ttys, tty)[k]
  {
    if ttys != [] {
      var rest := ttys[1..];
      assert ttys == [ttys[0]] + rest;
      if ttys[0] != tty {
        WithoutMember(rest, tty);
        assert ttys[0] !in Without(rest, tty);
      }
    }
  }

  lemma CloseInv(db: Db, tty: int)
    requires Inv(db)
    ensures Inv(Close(db, tty).0)
    ensures tty !in Close(db, tty).0.instances
  {
    WithoutMember(db.instances, tty);
  }
}
