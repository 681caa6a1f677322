/** The terminals and their tables as they run: rows updated in place, indices scanned in loops. */
module Terminals {
  import opened Collections
  import opened DirHistory

  lemma {:induction false} WithoutAt(ttys: seq<int>, k: nat)
    requires k < |ttys| && forall j | 0 <= j < k :: ttys[j] != ttys[k]
    ensures Without(ttys, ttys[k]) == ttys[..k] + ttys[k + 1..]
  {
    if k > 0 {
      WithoutAt(ttys[1..], k - 1);
      assert ttys[1..][..k - 1] == ttys[1..k] && ttys[1..][k..] == ttys[k + 1..];
      assert ttys[..k] == [ttys[0]] + ttys[1..k];
    }
  }

  /** An UPDATE in the middle, seen at index `i`: a row in `todo` still has its old index, the
      others have been moved down by `d`. */
  ghost predicate Row(was: History, now: History, d: int, todo: set<int>, i: int)
  {
    && (i in todo ==> i in was && i in now && now[i] == was[i])
    && (i in was && i !in todo ==> i - d in now && now[i - d] == was[i])
    && (i in now && i !in todo ==> i + d in was && i + d !in todo)
  }

  ghost predicate HalfShifted(was: History, now: History, d: int, todo: set<int>)
  {
    && (forall i :: Row(was, now, d, todo, i))
    && (forall i, j | i in was && i !in todo && j in todo :: i < j)
  }

  /** The next row never lands on an existing one. */
  lemma NoCollision(was: History, now: History, d: int, todo: set<int>, i: int)
    requires d > 0 && HalfShifted(was, now, d, todo)
    requires i in todo && forall j | j in todo :: i <= j
    ensures i - d !in now
  {
    assert i - d !in todo;
    assert Row(was, now, d, todo, i - d);
  }

  lemma ShiftRow(was: History, now: History, d: int, todo: set<int>, i: int)
    requires d > 0 && HalfShifted(was, now, d, todo)
    requires i in todo && forall j | j in todo :: i <= j
    ensures i in now && HalfShifted(was, (now - {i})[i - d := now[i]], d, todo - {i})
  {
    assert Row(was, now, d, todo, i);
    var now', todo' := (now - {i})[i - d := now[i]], todo - {i};
    forall k
      ensures Row(was, now', d, todo', k)
    {
      assert Row(was, now, d, todo, k);
      assert k in was && k !in todo ==> k < i;
    }
  }

  lemma ShiftDone(was: History, now: History, d: int)
    requires HalfShifted(was, now, d, {})
    ensures now == Shift(was, d)
  {
    hide Shift;
    var s := Shift(was, d);
    forall i: int
      ensures i in now <==> i in s
      ensures i in now ==> now[i] == s[i]
    {
      ShiftAt(was, d, i);
      assert Row(was, now, d, {}, i) && Row(was, now, d, {}, i + d);
    }
  }

  class TerminalDaemon {
    var history: History
    var sessions: Sessions
    var lastTouched: Option<int>
    var instances: seq<int>

    function State(): Db
      reads this
    {
      Db(history, sessions, lastTouched, instances)
    }

    constructor ()
      ensures State() == Db(map[], map[], None, [])
    {
      history, sessions, lastTouched, instances := map[], map[], None, [];
    }

    // ----- Queries -----

    method MinHistoryIndex() returns (m: int)
      requires history != map[]
      ensures m == Smallest(history.Keys)
    {
      assert Smallest(history.Keys) in history.Keys;
      m :| m in history.Keys && forall i | i in history.Keys :: m <= i;
    }

    method GetMaxHistoryIndex() returns (m: int)
      ensures m == MaxIndex(history)
    {
      if history == map[] {
        return -1;
      }
      assert Greatest(history.Keys) in history.Keys;
      m :| m in history.Keys && forall i | i in history.Keys :: i <= m;
    }

    method UpsertHistory(index: int, path: string)
      modifies this`history
      ensures history == old(history)[index := path]
    {
      history := history[index := path];
    }

    method SetSessionPointer(tty: int, index: int)
      modifies this`sessions
      ensures sessions == old(sessions)[tty := index]
    {
      sessions := sessions[tty := index];
    }

    // ----- Pruning -----

    /** UPDATE ... SET entry_index = entry_index - d: row by row, in ascending order. The statement
        fails when a row lands on an existing key; `ok` says that it never does. */
    method ShiftHistory(d: int) returns (ok: bool)
      requires d > 0
      modifies this`history
      ensures ok && history == Shift(old(history), d)
    {
      ghost var was := history;
      var todo := history.Keys;
      ok := true;
      while todo != {}
        invariant ok && HalfShifted(was, history, d, todo)
        decreases |todo|
      {
        assert Smallest(todo) in todo;
        var i :| i in todo && forall j | j in todo :: i <= j;
        assert Row(was, history, d, todo, i);
        NoCollision(was, history, d, todo, i);
        ShiftRow(was, history, d, todo, i);
        ok := ok && i - d !in history;
        history := (history - {i})[i - d := history[i]];
        todo := todo - {i};
      }
      ShiftDone(was, history, d);
    }

    method PruneHistory(maxSize: nat)
      modifies this`history, this`sessions, this`lastTouched
      ensures State() == Prune(old(State()), maxSize)
    {
      hide Keep, Shift, ShiftSessions;
      var count := |history|;
      if count <= maxSize {
        return;
      }
      var minIndex := MinHistoryIndex();
      var cutoff := minIndex + (count - maxSize);
      history := Keep(history, cutoff);
      if history == map[] {
        return;
      }
      var newMin := MinHistoryIndex();
      if newMin <= 0 {
        return;
      }
      var ok := ShiftHistory(newMin);
      sessions := ShiftSessions(sessions, newMin);
      if lastTouched.Some? {
        lastTouched := Some(ClampAt0(lastTouched.value - newMin));
      }
    }

    // ----- Walking the history -----

    method WalkBack(isDir: IsDirectory, from: int, raw: bool) returns (found: int)
      ensures found == LastLive(history, isDir, from, raw)
    {
      var i := from;
      while i >= 0
        invariant LastLive(history, isDir, from, raw) == LastLive(history, isDir, i, raw)
        decreases i + 1
      {
        var dir := Entry(history, i);
        if !raw {
          dir := Standardize(dir);
        }
        if dir != "" && dir != "/" && isDir(dir) {
          return i;
        }
        i := i - 1;
      }
      return -1;
    }

    method WalkForward(isDir: IsDirectory, from: int, max: int) returns (found: int)
      ensures found == FirstLive(history, isDir, from, max)
    {
      var i := from;
      while i <= max
        invariant FirstLive(history, isDir, from, max) == FirstLive(history, isDir, i, max)
        decreases max - i + 1
      {
        var dir := Standardize(Entry(history, i));
        if dir != "" && dir != "/" && isDir(dir) {
          return i;
        }
        i := i + 1;
      }
      return -1;
    }

    // ----- Commands -----

    method CreateTerminal(tty: int, isDir: IsDirectory)
      modifies this
      ensures State() == Create(old(State()), tty, isDir)
    {
      instances := instances + [tty];
      var startIndex := if lastTouched.Some? then lastTouched.value else -1;
      if startIndex < 0 {
        startIndex := GetMaxHistoryIndex();
      }
      if startIndex < 0 {
        startIndex := 0;
        UpsertHistory(0, Standardize(DEFAULT_DIR));
      }
      var found := WalkBack(isDir, startIndex, true);
      if found < 0 {
        found := GetMaxHistoryIndex();
        if found < 0 {
          found := 0;
        }
        UpsertHistory(found, Standardize(DEFAULT_DIR));
      }
      SetSessionPointer(tty, found);
    }

    method EnsureTerminal(tty: int, isDir: IsDirectory)
      modifies this
      ensures State() == Ensure(old(State()), tty, isDir)
    {
      if tty !in instances {
        CreateTerminal(tty, isDir);
      }
    }

    method OpenedTty(tty: int, isDir: IsDirectory) returns (message: string)
      modifies this
      ensures (State(), message) == Open(old(State()), tty, isDir)
    {
      EnsureTerminal(tty, isDir);
      var index := Pointer(sessions, tty);
      if index < 0 {
        index := 0;
        SetSessionPointer(tty, 0);
        UpsertHistory(0, Standardize(DEFAULT_DIR));
      }
      var dir := Standardize(Entry(history, index));
      if dir != "/" && !isDir(dir) {
        var found := WalkBack(isDir, index - 1, false);
        if found >= 0 {
          dir := Standardize(Entry(history, found));
          SetSessionPointer(tty, found);
          LastLiveIsLive(isDir, index - 1);
          return dir;
        }
        dir := Standardize(DEFAULT_DIR);
        SetSessionPointer(tty, 0);
      }
      if dir == "" || dir == "/" {
        dir := Standardize(DEFAULT_DIR);
        UpsertHistory(index, dir);
      }
      return dir;
    }

    lemma {:induction false} LastLiveIsLive(isDir: IsDirectory, i: int)
      requires LastLive(history, isDir, i, false) >= 0
      ensures Standardize(Entry(history, LastLive(history, isDir, i, false))) != "/"
      decreases if i < 0 then 0 else i + 1
    {
      if LastLive(history, isDir, i, false) != i {
        LastLiveIsLive(isDir, i - 1);
      }
    }

    method ClosedTty(tty: int) returns (ok: bool)
      modifies this
      ensures (State(), ok) == Close(old(State()), tty)
    {
      var k := 0;
      while k < |instances| && instances[k] != tty
        invariant k <= |instances|
        invariant forall j | 0 <= j < k :: instances[j] != tty
      {
        k := k + 1;
      }
      if k == |instances| {
        return false;
      }
      WithoutAt(instances, k);
      instances := instances[..k] + instances[k + 1..];
      sessions := sessions - {tty};
      return true;
    }

    method UpdateDirHistory(tty: int, reported: string, isDir: IsDirectory) returns (ok: bool)
      modifies this
      ensures (State(), ok) == Update(old(State()), tty, reported, isDir)
    {
      hide Ensure, Prune, Entry, MaxIndex, IndexOf;
      EnsureTerminal(tty, isDir);
      var index := IndexOf(sessions, tty);
      var pwd := Standardize(reported);
      assert pwd != "";
      hide Standardize;
      var currentDir := Standardize(Entry(history, index));
      var nextDir := Standardize(Entry(history, index + 1));
      lastTouched := Some(index);
      if pwd == "" || pwd == "/" {
        return false;
      } else if currentDir == pwd {
      } else if nextDir == pwd {
        SetSessionPointer(tty, index + 1);
      } else {
        var last := GetMaxHistoryIndex();
        UpsertHistory(last + 1, pwd);
        SetSessionPointer(tty, last + 1);
        lastTouched := Some(last + 1);
        PruneHistory(MAX_DIR_HISTORY_SIZE);
      }
      return true;
    }

    method GoForward(tty: int, isDir: IsDirectory) returns (message: string)
      modifies this
      ensures (State(), message) == (Forward(old(State()), tty, isDir), ForwardReply(old(State()), tty, isDir))
    {
      EnsureTerminal(tty, isDir);
      var index := IndexOf(sessions, tty);
      var maxIndex := GetMaxHistoryIndex();
      var found := WalkForward(isDir, index + 1, maxIndex);
      if found >= 0 {
        SetSessionPointer(tty, found);
        return "cd " + Standardize(Entry(history, found)) + "\n";
      }
      return END_REACHED;
    }

    method GoBackward(tty: int, isDir: IsDirectory) returns (message: string)
      modifies this
      ensures (State(), message) == (Backward(old(State()), tty, isDir), BackwardReply(old(State()), tty, isDir))
    {
      EnsureTerminal(tty, isDir);
      var index := IndexOf(sessions, tty);
      var found := WalkBack(isDir, index - 1, false);
      if found >= 0 {
        SetSessionPointer(tty, found);
        return "cd " + Standardize(Entry(history, found)) + "\n";
      }
      return BEGINNING_REACHED;
    }
  }
}
