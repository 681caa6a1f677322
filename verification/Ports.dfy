/** Port allocation for extra apps. */
module Ports {
  import opened Collections

  const PAIR_BASE: int := 3000
  const PAIR_END: int := 3500
  const SERVER_BASE: int := 3500
  const SERVER_END: int := 4000

  /** The settings table, with each value as stoi reads it (None if it throws). */
  type Settings = map<string, Option<int>>

  predicate IsPortKey(key: string)
  {
    "port_" <= key
  }

  function UsedPorts(s: Settings): set<int>
  {
    set k | k in s && IsPortKey(k) && s[k].Some? :: s[k].value
  }

  /** The first even base in base..PAIR_END whose pair is free, or -1. */
  function FreePair(used: set<int>, base: int): (p: int)
    ensures p == -1 || (base <= p < PAIR_END && (p - base) % 2 == 0 && p !in used && p + 1 !in used)
    decreases PAIR_END - base
  {
    if base >= PAIR_END then -1
    else if base !in used && base + 1 !in used then base
    else FreePair(used, base + 2)
  }

  function FreeServer(used: set<int>, port: int): (p: int)
    ensures p == -1 || (port <= p < SERVER_END && p !in used)
    decreases SERVER_END - port
  {
    if port >= SERVER_END then -1
    else if port !in used then port
    else FreeServer(used, port + 1)
  }

  /** Settings and the extra apps on record, with their server flag. */
  datatype Db = Db(settings: Settings, apps: map<string, bool>)

  function Key(app: string, what: string): string
  {
    "port_" + app + what
  }

  function WithPorts(s: Settings, app: string, pair: int, hasServer: bool, server: int): Settings
  {
    var s1 := s[Key(app, "-prod") := Some(pair)][Key(app, "-dev") := Some(pair + 1)];
    if hasServer then s1[Key(app, "-server") := Some(server)] else s1
  }

  function WithoutPorts(s: Settings, app: string, hasServer: bool): Settings
  {
    var s1 := s - {Key(app, "-prod")} - {Key(app, "-dev")};
    if hasServer then s1 - {Key(app, "-server")} else s1
  }

  /** Adding an app; `cloned` says whether its repository is there. */
  function AddApp(db: Db, hardcoded: set<string>, app: string, hasServer: bool, cloned: bool): (Db, bool)
  {
    if app == "" || app in hardcoded || app in db.apps || !cloned then (db, false) else
    var used := UsedPorts(db.settings);
    var pair := FreePair(used, PAIR_BASE);
    if pair < 0 then (db, false) else
    var server := if hasServer then FreeServer(used, SERVER_BASE) else -1;
    if hasServer && server < 0 then (db, false) else
    (Db(WithPorts(db.settings, app, pair, hasServer, server), db.apps[app := hasServer]), true)
  }

  function RemoveApp(db: Db, app: string): (Db, bool)
  {
    if app !in db.apps then (db, false)
    else (Db(WithoutPorts(db.settings, app, db.apps[app]), db.apps - {app}), true)
  }

  // ----- Which ports an app gets -----

  /** The least even port of 3000-3499 that is free along with the next one. */
  ghost predicate LowestPair(used: set<int>, p: int)
  {
    && 3000 <= p < 3500 && p % 2 == 0 && p !in used && p + 1 !in used
    && forall q | 3000 <= q < p && q % 2 == 0 :: q in used || q + 1 in used
  }

  /** The least free port of 3500-3999. */
  ghost predicate LowestServer(used: set<int>, p: int)
  {
    3500 <= p < 4000 && p !in used && forall q | 3500 <= q < p :: q in used
  }

  lemma {:induction false} FreePairIsLowest(used: set<int>, base: int)
    requires base >= 0 && base % 2 == 0
    ensures var p := FreePair(used, base);
            forall q | base <= q < (if p < 0 then PAIR_END else p) && q % 2 == 0 :: q in used || q + 1 in used
    decreases PAIR_END - base
  {
    if base < PAIR_END && (base in used || base + 1 in used) {
      var p := FreePair(used, base);
      assert p == FreePair(used, base + 2);
      FreePairIsLowest(used, base + 2);
      hide FreePair;
      forall q | base <= q < (if p < 0 then PAIR_END else p) && q % 2 == 0
        ensures q in used || q + 1 in used
      {
        assert q == base || base + 2 <= q;
      }
    }
  }

  lemma {:induction false} FreeServerIsLowest(used: set<int>, port: int)
    requires port >= 0
    ensures var p := FreeServer(used, port);
            forall q | port <= q < (if p < 0 then SERVER_END else p) :: q in used
    decreases SERVER_END - port
  {
    if port < SERVER_END && port in used {
      FreeServerIsLowest(used, port + 1);
    }
  }

  /** A port counts as used exactly if a key beginning with port_ holds it. */
  lemma UsedIff(s: Settings, p: int)
    ensures p in UsedPorts(s) <==> exists k :: "port_" <= k && k in s && s[k] == Some(p)
  {
    if k :| "port_" <= k && k in s && s[k] == Some(p) {
      assert IsPortKey(k);
    }
  }

  lemma WithPortsAssigns(s: Settings, app: string, pair: int, hasServer: bool, server: int)
    requires LowestPair(UsedPorts(s), pair) && (hasServer ==> LowestServer(UsedPorts(s), server))
    ensures Assigned(s, app, hasServer, WithPorts(s, app, pair, hasServer, server))
  {
    KeysDiffer(app);
    hide UsedPorts, LowestPair, LowestServer, IsPortKey;
  }

  lemma FreeAreLowest(used: set<int>)
    ensures FreePair(used, PAIR_BASE) >= 0 ==> LowestPair(used, FreePair(used, PAIR_BASE))
    ensures FreeServer(used, SERVER_BASE) >= 0 ==> LowestServer(used, FreeServer(used, SERVER_BASE))
  {
    FreePairIsLowest(used, PAIR_BASE);
    FreeServerIsLowest(used, SERVER_BASE);
    hide FreePair, FreeServer;
  }

  /** An app that is added gets the lowest free pair, -prod the even port of it and -dev the next one,
      and if it has a server the lowest free server port; it is on record from then on, and no other
      setting or app changes. An addition that is refused changes nothing. */
  lemma AddAssignsLowest(db: Db, hardcoded: set<string>, app: string, hasServer: bool, cloned: bool)
    ensures var (db', ok) := AddApp(db, hardcoded, app, hasServer, cloned);
            if ok then Assigned(db.settings, app, hasServer, db'.settings) && db'.apps == db.apps[app := hasServer] else db' == db
  {
    var used := UsedPorts(db.settings);
    hide UsedPorts, FreePair, FreeServer, WithPorts, Assigned, LowestPair, LowestServer;
    FreeAreLowest(used);
    if AddApp(db, hardcoded, app, hasServer, cloned).1 {
      WithPortsAssigns(db.settings, app, FreePair(used, PAIR_BASE), hasServer,
                       if hasServer then FreeServer(used, SERVER_BASE) else -1);
    }
  }

  ghost predicate Assigned(s: Settings, app: string, hasServer: bool, s': Settings)
  {
    var used, prod, dev, server := UsedPorts(s), "port_" + app + "-prod", "port_" + app + "-dev", "port_" + app + "-server";
    && prod in s' && s'[prod].Some? && LowestPair(used, s'[prod].value)
    && dev in s' && s'[dev] == Some(s'[prod].value + 1)
    && (hasServer ==> server in s' && s'[server].Some? && LowestServer(used, s'[server].value))
    && (forall k | k != prod && k != dev && (hasServer ==> k != server) ::
          (k in s' <==> k in s) && (k in s ==> s'[k] == s[k]))
  }

  /** A removal succeeds exactly if the app is on record. It takes away the app and its ports, that of
      the server only if the app has one on record, and nothing else; otherwise it changes nothing. */
  lemma RemoveIs(db: Db, app: string)
    ensures RemoveApp(db, app).1 <==> app in db.apps
    ensures var (s, s') := (db.settings, RemoveApp(db, app).0.settings);
            var prod, dev, server := "port_" + app + "-prod", "port_" + app + "-dev", "port_" + app + "-server";
            && RemoveApp(db, app).0.apps == db.apps - {app}
            && s'.Keys == s.Keys - (if app !in db.apps then {} else if db.apps[app] then {prod, dev, server} else {prod, dev})
            && forall k | k in s' :: s'[k] == s[k]
  {
    if app !in db.apps {
      assert db.apps - {app} == db.apps;
    }
  }

  // ----- When allocation fails -----

  lemma {:induction false} PairFailsIff(used: set<int>, base: int)
    requires (PAIR_END - base) % 2 == 0
    ensures FreePair(used, base) == -1
       <==> forall p | base <= p < PAIR_END && (p - base) % 2 == 0 :: p in used || p + 1 in used
    decreases PAIR_END - base
  {
    if base < PAIR_END {
      PairFailsIff(used, base + 2);
      if FreePair(used, base) == -1 {
        forall p | base <= p < PAIR_END && (p - base) % 2 == 0
          ensures p in used || p + 1 in used
        {
          assert p == base || (base + 2 <= p && (p - (base + 2)) % 2 == 0);
        }
      }
    }
  }

  lemma {:induction false} ServerFailsIff(used: set<int>, port: int)
    requires port >= 0
    ensures FreeServer(used, port) == -1 <==> forall p | port <= p < SERVER_END :: p in used
    decreases SERVER_END - port
  {
    if port < SERVER_END {
      ServerFailsIff(used, port + 1);
    }
  }

  ghost predicate NoPairFree(used: set<int>)
  {
    forall p | PAIR_BASE <= p < PAIR_END && (p - PAIR_BASE) % 2 == 0 :: p in used || p + 1 in used
  }

  ghost predicate NoServerFree(used: set<int>)
  {
    forall p | SERVER_BASE <= p < SERVER_END :: p in used
  }

  /** An addition fails exactly when the app is unnamed, known or not cloned, no pair of ports is
      free, or it has a server and no server port is free. */
  lemma AddFailsIff(db: Db, hardcoded: set<string>, app: string, hasServer: bool, cloned: bool)
    ensures !AddApp(db, hardcoded, app, hasServer, cloned).1
       <==> (app == "" || app in hardcoded || app in db.apps || !cloned
             || NoPairFree(UsedPorts(db.settings)) || (hasServer && NoServerFree(UsedPorts(db.settings))))
  {
    PairFailsIff(UsedPorts(db.settings), PAIR_BASE);
    ServerFailsIff(UsedPorts(db.settings), SERVER_BASE);
  }

  ghost function Within(used: set<int>, lo: int, hi: int): set<int>
  {
    set p | p in used && lo <= p < hi
  }

  /** The pigeonhole: if no pair is free, at least one port of every pair is taken. */
  lemma {:induction false} PairFailureMeansTaken(used: set<int>, base: int)
    requires base <= PAIR_END && (PAIR_END - base) % 2 == 0 && FreePair(used, base) == -1
    ensures 2 * |Within(used, base, PAIR_END)| >= PAIR_END - base
    decreases PAIR_END - base
  {
    if base < PAIR_END {
      PairFailureMeansTaken(used, base + 2);
      var taken := if base in used then base else base + 1;
      var rest := Within(used, base + 2, PAIR_END);
      assert rest + {taken} <= Within(used, base, PAIR_END);
      SubsetSize(rest + {taken}, Within(used, base, PAIR_END));
    }
  }

  lemma {:induction false} ServerFailureMeansTaken(used: set<int>, port: int)
    requires SERVER_BASE <= port <= SERVER_END && FreeServer(used, port) == -1
    ensures |Within(used, port, SERVER_END)| >= SERVER_END - port
    decreases SERVER_END - port
  {
    if port < SERVER_END {
      ServerFailureMeansTaken(used, port + 1);
      var rest := Within(used, port + 1, SERVER_END);
      assert rest + {port} <= Within(used, port, SERVER_END);
      SubsetSize(rest + {port}, Within(used, port, SERVER_END));
    }
  }

  lemma {:induction false} SubsetSize(a: set<int>, b: set<int>)
    requires a <= b
    ensures |a| <= |b|
  {
    assert b == a + (b - a);
  }

  /** Adding an app that is new and whose repository is there fails only when at least 250 of the
      ports 3000-3499 are taken, or it has a server and all 500 of 3500-3999 are. */
  lemma AddFailsOnlyWhenFull(db: Db, hardcoded: set<string>, app: string, hasServer: bool)
    requires app != "" && app !in hardcoded && app !in db.apps
    requires !AddApp(db, hardcoded, app, hasServer, true).1
    ensures var used := UsedPorts(db.settings);
            || |Within(used, PAIR_BASE, PAIR_END)| >= 250
            || (hasServer && |Within(used, SERVER_BASE, SERVER_END)| == 500)
  {
    var used := UsedPorts(db.settings);
    if FreePair(used, PAIR_BASE) < 0 {
      PairFailureMeansTaken(used, PAIR_BASE);
    } else {
      ServerFailureMeansTaken(used, SERVER_BASE);
      WithinSize(used, SERVER_BASE, SERVER_END);
    }
  }

  lemma {:induction false} WithinSize(used: set<int>, lo: int, hi: int)
    requires lo <= hi
    ensures |Within(used, lo, hi)| <= hi - lo
    decreases hi - lo
  {
    if lo == hi {
      assert Within(used, lo, hi) == {};
    } else {
      WithinSize(used, lo, hi - 1);
      assert Within(used, lo, hi) <= Within(used, lo, hi - 1) + {hi - 1};
      SubsetSize(Within(used, lo, hi), Within(used, lo, hi - 1) + {hi - 1});
    }
  }

  // ----- No port is shared -----

  ghost predicate NoSharedPort(s: Settings)
  {
    forall k, k' | k in s && k' in s && k != k' && IsPortKey(k) && IsPortKey(k') && s[k].Some? && s[k'].Some? ::
      s[k].value != s[k'].value
  }

  lemma KeysDiffer(app: string)
    ensures IsPortKey(Key(app, "-prod")) && IsPortKey(Key(app, "-dev")) && IsPortKey(Key(app, "-server"))
    ensures Key(app, "-prod") != Key(app, "-dev") && Key(app, "-prod") != Key(app, "-server") && Key(app, "-dev") != Key(app, "-server")
  {
    assert |Key(app, "-prod")| == |app| + 10 && |Key(app, "-dev")| == |app| + 9 && |Key(app, "-server")| == |app| + 12;
  }

  lemma FreshPort(s: Settings, key: string, port: int)
    requires NoSharedPort(s) && port !in UsedPorts(s)
    ensures NoSharedPort(s[key := Some(port)])
    ensures UsedPorts(s[key := Some(port)]) <= UsedPorts(s) + {port}
  {
    var s' := s[key := Some(port)];
    forall k, k' | k in s' && k' in s' && k != k' && IsPortKey(k) && IsPortKey(k') && s'[k].Some? && s'[k'].Some?
      ensures s'[k].value != s'[k'].value
    {
      assert k != key ==> s[k].value in UsedPorts(s);
      assert k' != key ==> s[k'].value in UsedPorts(s);
    }
  }

  lemma WithPortsSharesNothing(s: Settings, app: string, pair: int, hasServer: bool, server: int)
    requires NoSharedPort(s) && pair !in UsedPorts(s) && pair + 1 !in UsedPorts(s)
    requires hasServer ==> server !in UsedPorts(s) && server > pair + 1
    ensures NoSharedPort(WithPorts(s, app, pair, hasServer, server))
  {
    hide NoSharedPort, UsedPorts, Key;
    var s1 := s[Key(app, "-prod") := Some(pair)];
    var s2 := s1[Key(app, "-dev") := Some(pair + 1)];
    FreshPort(s, Key(app, "-prod"), pair);
    FreshPort(s1, Key(app, "-dev"), pair + 1);
    if hasServer {
      FreshPort(s2, Key(app, "-server"), server);
    }
  }

  lemma AddSharesNothing(db: Db, hardcoded: set<string>, app: string, hasServer: bool, cloned: bool)
    requires NoSharedPort(db.settings)
    ensures NoSharedPort(AddApp(db, hardcoded, app, hasServer, cloned).0.settings)
  {
    hide NoSharedPort, UsedPorts, FreePair, FreeServer, WithPorts;
    if AddApp(db, hardcoded, app, hasServer, cloned).1 {
      var used := UsedPorts(db.settings);
      WithPortsSharesNothing(db.settings, app, FreePair(used, PAIR_BASE), hasServer,
                             if hasServer then FreeServer(used, SERVER_BASE) else -1);
    }
  }

  lemma RemoveSharesNothing(db: Db, app: string)
    requires NoSharedPort(db.settings)
    ensures NoSharedPort(RemoveApp(db, app).0.settings)
  {
  }

  datatype Command = Add(app: string, hasServer: bool, cloned: bool) | Remove(app: string)

  function Run(db: Db, hardcoded: set<string>, cs: seq<Command>): Db
  {
    if cs == [] then db else
    var before := Run(db, hardcoded, cs[..|cs| - 1]);
    match cs[|cs| - 1]
    case Add(app, hasServer, cloned) => AddApp(before, hardcoded, app, hasServer, cloned).0
    case Remove(app) => RemoveApp(before, app).0
  }

  /** Over every sequence of additions and removals, no two port settings come to share a number
      if none did before. */
  lemma {:induction false} NoPortIsEverShared(db: Db, hardcoded: set<string>, cs: seq<Command>)
    requires NoSharedPort(db.settings)
    ensures NoSharedPort(Run(db, hardcoded, cs).settings)
  {
    if cs != [] {
      var before := Run(db, hardcoded, cs[..|cs| - 1]);
      NoPortIsEverShared(db, hardcoded, cs[..|cs| - 1]);
      match cs[|cs| - 1]
      case Add(app, hasServer, cloned) => AddSharesNothing(before, hardcoded, app, hasServer, cloned);
      case Remove(app) => RemoveSharesNothing(before, app);
    }
  }

  /** Removing an app gives back exactly what adding it took, if its keys were unused before. */
  lemma RemoveUndoesAdd(db: Db, hardcoded: set<string>, app: string, hasServer: bool)
    requires AddApp(db, hardcoded, app, hasServer, true).1
    requires Key(app, "-prod") !in db.settings && Key(app, "-dev") !in db.settings && Key(app, "-server") !in db.settings
    ensures RemoveApp(AddApp(db, hardcoded, app, hasServer, true).0, app) == (db, true)
  {
    KeysDiffer(app);
    var db1 := AddApp(db, hardcoded, app, hasServer, true).0;
    assert RemoveApp(db1, app).0.settings == db.settings;
    assert RemoveApp(db1, app).0.apps == db.apps;
  }

  // ----- As it runs -----

  class PortRegistry {
    var settings: Settings
    var apps: map<string, bool>
    const hardcoded: set<string>

    function State(): Db
      reads this
    {
      Db(settings, apps)
    }

    constructor (hardcoded: set<string>)
      ensures State() == Db(map[], map[]) && this.hardcoded == hardcoded
    {
      this.hardcoded := hardcoded;
      settings, apps := map[], map[];
    }

    method CollectUsedPorts() returns (used: set<int>)
      ensures used == UsedPorts(settings)
    {
      used := {};
      var todo := settings.Keys;
      ghost var done: set<string> := {};
      while todo != {}
        invariant done + todo == settings.Keys && done !! todo
        invariant used == set k | k in done && IsPortKey(k) && settings[k].Some? :: settings[k].value
        decreases |todo|
      {
        var key :| key in todo;
        if IsPortKey(key) && settings[key].Some? {
          used := used + {settings[key].value};
        }
        done, todo := done + {key}, todo - {key};
      }
      assert done == settings.Keys;
    }

    method FindNextAvailablePortPair() returns (base: int)
      ensures base == FreePair(UsedPorts(settings), PAIR_BASE)
    {
      var used := CollectUsedPorts();
      base := PAIR_BASE;
      while base < PAIR_END
        invariant (PAIR_END - base) % 2 == 0
        invariant FreePair(used, PAIR_BASE) == FreePair(used, base)
        decreases PAIR_END - base
      {
        if base !in used && base + 1 !in used {
          return;
        }
        base := base + 2;
      }
      base := -1;
    }

    method FindNextAvailableServerPort() returns (port: int)
      ensures port == FreeServer(UsedPorts(settings), SERVER_BASE)
    {
      var used := CollectUsedPorts();
      port := SERVER_BASE;
      while port < SERVER_END
        invariant FreeServer(used, SERVER_BASE) == FreeServer(used, port)
        decreases SERVER_END - port
      {
        if port !in used {
          return;
        }
        port := port + 1;
      }
      port := -1;
    }

    method HandleAddExtraApp(app: string, hasServer: bool, cloned: bool) returns (ok: bool)
      modifies this
      ensures (State(), ok) == AddApp(old(State()), hardcoded, app, hasServer, cloned)
    {
      if app == "" || app in hardcoded || app in apps || !cloned {
        return false;
      }
      var prodPort := FindNextAvailablePortPair();
      if prodPort < 0 {
        return false;
      }
      var serverPort := -1;
      if hasServer {
        serverPort := FindNextAvailableServerPort();
        if serverPort < 0 {
          return false;
        }
      }
      settings := settings[Key(app, "-prod") := Some(prodPort)];
      settings := settings[Key(app, "-dev") := Some(prodPort + 1)];
      if hasServer {
        settings := settings[Key(app, "-server") := Some(serverPort)];
      }
      apps := apps[app := hasServer];
      return true;
    }

    method HandleRemoveExtraApp(app: string) returns (ok: bool)
      modifies this
      ensures (State(), ok) == RemoveApp(old(State()), app)
    {
      if app !in apps {
        return false;
      }
      settings := settings - {Key(app, "-prod")};
      settings := settings - {Key(app, "-dev")};
      if apps[app] {
        settings := settings - {Key(app, "-server")};
      }
      apps := apps - {app};
      return true;
    }
  }
}
