/** What every reachable state of the mapper satisfies. */
module StateInvariant {
  import opened Collections
  import opened InputEvents
  import opened Suppression
  import opened MacroEngine
  import opened EngineInvariant
  import opened Pipeline

  ghost predicate IdleCombos(combos: Combos)
  {
    forall i | i in combos :: combos[i].next == 0 && combos[i].suppressed == []
  }

  /** The registry agrees with the progress of the active app's combos, and all others are idle. */
  ghost predicate Inv(s: Mapper)
  {
    && Consistent(EngineOf(s), ActionsOf(s.macros, s.app))
    && forall a | a in s.progress && a != s.app :: IdleCombos(s.progress[a])
  }

  ghost predicate AtRest(s: Mapper)
  {
    s.registry == map[] && forall a | a in s.progress :: IdleCombos(s.progress[a])
  }

  lemma AtRestInv(s: Mapper)
    requires AtRest(s)
    ensures Inv(s)
  {
  }

  lemma {:induction false} AscendingElements(s: set<nat>, i: nat)
    ensures i in Ascending(s) <==> i in s
  {
    if s != {} {
      AscendingElements(s - {Greatest(s)}, i);
    }
  }

  lemma {:induction false} VisitOrderElements(progress: map<AppType, Combos>, apps: seq<AppType>, i: nat)
    ensures i in VisitOrder(progress, apps) <==> exists a :: a in apps && a in progress && i in progress[a]
  {
    if apps != [] {
      var before, last := apps[..|apps| - 1], apps[|apps| - 1];
      VisitOrderElements(progress, before, i);
      AscendingElements(CombosOf(progress, last).Keys, i);
      assert apps == before + [last];
    }
  }

  lemma AllVisited(progress: map<AppType, Combos>, app: AppType, i: nat)
    requires i in CombosOf(progress, app)
    ensures i in Elements(VisitOrder(progress, AppOrder))
  {
    VisitOrderElements(progress, AppOrder, i);
    assert AppOrder[0] == OTHER && AppOrder[1] == TERMINAL && AppOrder[2] == CHROME && AppOrder[3] == CODE;
    assert app in AppOrder;
  }

  /** Every owner in the registry is a combo of the active app that remembers the event. */
  lemma OwnerIsActive(e: Engine, c: nat, k: WithheldKey)
    requires Shared(e.registry, e.combos) && k in Bucket(e.registry, c)
    ensures k.ev in OnCode(Combo(e.combos, k.owner).suppressed, c)
    ensures k.owner in e.combos
  {
    OwnMember(Bucket(e.registry, c), k.owner, k.ev);
    assert Own(Bucket(e.registry, c), k.owner) == OnCode(Combo(e.combos, k.owner).suppressed, c);
  }

  /** Visiting every combo once leaves nothing in the registry. */
  lemma NothingLeft(s: Mapper)
    requires Inv(s)
    ensures Discard(s.registry, Elements(VisitOrder(s.progress, AppOrder))) == map[]
  {
    var w, owners := s.registry, Elements(VisitOrder(s.progress, AppOrder));
    forall c | c in w
      ensures Outside(w[c], owners) == []
    {
      var rest := Outside(w[c], owners);
      if rest != [] {
        OutsideMember(w[c], owners, rest[0]);
        OwnerIsActive(EngineOf(s), c, rest[0]);
        AllVisited(s.progress, s.app, rest[0].owner);
      }
    }
  }

  lemma ReleaseAllRests(s: Mapper)
    requires Inv(s)
    ensures AtRest(ReleaseAll(s))
  {
    NothingLeft(s);
  }

  lemma FlushRests(s: Mapper)
    requires Inv(s)
    ensures AtRest(Flush(s))
  {
    NothingLeft(s);
  }

  lemma MacroStageInv(s: Mapper, ev: Event, now: nat, skip: bool)
    requires Inv(s)
    ensures Inv(MacroStage(s, ev, now, skip).0)
  {
    if !skip && s.app in s.macros {
      ComboStepsConsistent(EngineOf(s), s.macros[s.app], |s.macros[s.app]|, InputOf(s, ev, now));
    }
  }

  lemma FeedInv(s: Mapper, ev: Event, now: nat, skip: bool)
    requires Inv(s)
    ensures Inv(Feed(s, ev, now, skip))
  {
    MacroStageInv(s, ev, now, skip);
  }

  lemma SetContextInv(s: Mapper, app: AppType, url: string, title: string)
    requires Inv(s)
    ensures Inv(SetContext(s, app, url, title))
  {
    if SetContext(s, app, url, title) != s {
      ReleaseAllRests(s);
      AtRestInv(SetContext(s, app, url, title));
    }
  }

  /** The agreement only looks at the macros, the active app, the registry and the progress. */
  lemma InvFrame(s: Mapper, s': Mapper)
    requires Inv(s)
    requires s'.macros == s.macros && s'.app == s.app && s'.registry == s.registry && s'.progress == s.progress
    ensures Inv(s')
  {
    var e, e' := EngineOf(s), EngineOf(s');
    assert e'.registry == e.registry && e'.combos == e.combos;
  }

  lemma SetNumLockInv(s: Mapper, active: bool, idle: bool)
    requires Inv(s)
    ensures Inv(SetNumLock(s, active, idle))
  {
    if s.numLock != active {
      var s1 := s.(numLock := active);
      var s2 := if active then s1.(monitoring := true) else Grab(s1, idle);
      InvFrame(s, s2);
      ReleaseAllRests(s2);
      AtRestInv(ReleaseAll(s2));
    }
  }

  /** Emergency handling and key tracking touch nothing but their own fields. */
  lemma TrackFrame(s: Mapper, ev: Event, now: nat)
    ensures var s' := Track(Emergency(s, ev, now), ev);
            s' == s.(monitoring := s'.monitoring, pressed := s'.pressed,
                     scrollCount := s'.scrollCount, scrollFirst := s'.scrollFirst)
  {
    EmergencyFrame(s, ev, now);
    hide Emergency;
  }

  lemma EmergencyFrame(s: Mapper, ev: Event, now: nat)
    ensures var s' := Emergency(s, ev, now);
            s' == s.(monitoring := s'.monitoring, scrollCount := s'.scrollCount, scrollFirst := s'.scrollFirst)
  {
    if ev.code == KEY_SCROLLLOCK {
      if s.scrollCount == 0 || now - s.scrollFirst > SECOND {
      } else if s.scrollCount + 1 >= 3 {
      }
    }
  }

  lemma ContextStageInv(s: Mapper, ev: Event, now: nat, idle: bool)
    requires Inv(s)
    ensures Inv(ContextStage(s, ev, now, idle))
  {
    var s1 := Track(Emergency(s, ev, now), ev);
    TrackFrame(s, ev, now);
    InvFrame(s, s1);
    SetNumLockInv(s1, !s1.numLock, idle);
  }

  lemma {:induction false} ProcessInv(s: Mapper, ev: Event, skip: bool, now: nat, idle: bool)
    requires Inv(s)
    ensures Inv(Process(s, ev, skip, now, idle))
    decreases if KEY_1 <= ev.code <= KEY_6 then 1 else 0
  {
    var s1 := ContextStage(s, ev, now, idle);
    ContextStageInv(s, ev, now, idle);
    if !s1.monitoring {
      var (g, k) := DetectG(s1.gToggle, ev);
      if skip {
        FeedInv(s1, ev, now, skip);
      } else if k > 0 {
        ProcessInv(s1.(gToggle := g), Virtual(ev, k), false, now, idle);
      } else {
        FeedInv(s1.(gToggle := g), ev, now, skip);
      }
    }
  }

  lemma {:induction false} SyncedInv(s: Mapper, rs: seq<Reading>)
    requires Inv(s)
    ensures Inv(Synced(s, rs))
  {
    if rs != [] {
      var r := rs[|rs| - 1];
      SyncedInv(s, rs[..|rs| - 1]);
      ProcessInv(Synced(s, rs[..|rs| - 1]), r.ev, true, r.now, r.idle);
    }
  }

  /** A reload keeps registry and progress in agreement exactly when nothing is withheld. */
  lemma ReloadKeepsInvIff(s: Mapper, overlay: Macros)
    requires Inv(s)
    ensures Inv(Reload(s, overlay)) <==> s.registry == map[]
  {
    var s' := Reload(s, overlay);
    if s.registry == map[] {
      AtRestInv(s');
    } else {
      var c :| c in s.registry;
      if Inv(s') {
        OwnerIsActive(EngineOf(s'), c, s.registry[c][0]);
      }
    }
  }

  /** Macros are reloaded only while nothing is withheld. */
  ghost predicate Admissible(s: Mapper, ops: seq<Op>)
  {
    ops == [] ||
    (var before := ops[..|ops| - 1];
     Admissible(s, before) && (ops[|ops| - 1].LoadMacros? ==> Run(s, before).registry == map[]))
  }

  lemma PerformInv(s: Mapper, op: Op)
    requires Inv(s) && (op.LoadMacros? ==> s.registry == map[])
    ensures Inv(Perform(s, op))
  {
    match op
    case Read(r) => ProcessInv(s, r.ev, false, r.now, r.idle);
    case Resync(rs) =>
      FlushRests(s);
      AtRestInv(Flush(s));
      SyncedInv(Flush(s), rs);
    case Focus(app, url, title) => SetContextInv(s, app, url, title);
    case Regrab(idle) =>
    case LoadMacros(overlay) => ReloadKeepsInvIff(s, overlay);
  }

  /** The agreement holds in every reachable state. */
  lemma {:induction false} ReachableInv(s: Mapper, ops: seq<Op>)
    requires Initial(s) && Admissible(s, ops)
    ensures Inv(Run(s, ops))
  {
    if ops == [] {
      AtRestInv(s);
    } else {
      ReachableInv(s, ops[..|ops| - 1]);
      PerformInv(Run(s, ops[..|ops| - 1]), ops[|ops| - 1]);
    }
  }
}
