/** Context, macros and ScrollLock presses over whole runs of the mapper. */
module MapperRuns {
  import opened Collections
  import opened InputEvents
  import opened Suppression
  import opened MacroEngine
  import opened Pipeline
  import opened StateInvariant
  import opened EmergencyUngrab

  // ----- What events leave alone -----

  ghost predicate SameSetup(s: Mapper, s': Mapper)
  {
    s'.macros == s.macros && s'.app == s.app && s'.url == s.url && s'.title == s.title
  }

  lemma FeedSetup(s: Mapper, ev: Event, now: nat, skip: bool)
    ensures var s' := Feed(s, ev, now, skip);
            SameSetup(s, s') && s'.scrollCount == s.scrollCount && s'.scrollFirst == s.scrollFirst
  {
    hide ComboSteps;
  }

  lemma ContextSetup(s: Mapper, ev: Event, now: nat, idle: bool)
    ensures var s', e := ContextStage(s, ev, now, idle), Emergency(s, ev, now);
            SameSetup(s, s') && s'.scrollCount == e.scrollCount && s'.scrollFirst == e.scrollFirst
  {
    var s1 := Track(Emergency(s, ev, now), ev);
    TrackSetup(s, ev, now);
    NumLockSetup(s1, !s1.numLock, idle);
    hide Emergency, Track, SetNumLock;
  }

  lemma TrackSetup(s: Mapper, ev: Event, now: nat)
    ensures var e := Emergency(s, ev, now);
            var s' := Track(e, ev);
            SameSetup(s, s') && s'.scrollCount == e.scrollCount && s'.scrollFirst == e.scrollFirst
  {
    EmergencyFrame(s, ev, now);
    hide Emergency;
  }

  lemma NumLockSetup(s: Mapper, active: bool, idle: bool)
    ensures var s' := SetNumLock(s, active, idle);
            SameSetup(s, s') && s'.scrollCount == s.scrollCount && s'.scrollFirst == s.scrollFirst
  {
    hide Ascending, VisitOrder, Discard, ResetAll, Elements, Releases;
  }

  lemma {:induction false} ProcessSetup(s: Mapper, ev: Event, skip: bool, now: nat, idle: bool)
    ensures var s', e := Process(s, ev, skip, now, idle), Emergency(s, ev, now);
            SameSetup(s, s') && s'.scrollCount == e.scrollCount && s'.scrollFirst == e.scrollFirst
    decreases if KEY_1 <= ev.code <= KEY_6 then 1 else 0
  {
    var s1 := ContextStage(s, ev, now, idle);
    ContextSetup(s, ev, now, idle);
    if !s1.monitoring {
      var (g, k) := DetectG(s1.gToggle, ev);
      if skip {
        FeedSetup(s1, ev, now, skip);
      } else if k > 0 {
        ProcessSetup(s1.(gToggle := g), Virtual(ev, k), false, now, idle);
      } else {
        FeedSetup(s1.(gToggle := g), ev, now, skip);
      }
    }
    hide ContextStage, Feed;
  }

  lemma {:induction false} SyncedSetup(s: Mapper, rs: seq<Reading>)
    ensures SameSetup(s, Synced(s, rs))
  {
    if rs != [] {
      var r := rs[|rs| - 1];
      SyncedSetup(s, rs[..|rs| - 1]);
      ProcessSetup(Synced(s, rs[..|rs| - 1]), r.ev, true, r.now, r.idle);
    }
  }

  lemma PerformSetup(s: Mapper, op: Op)
    requires !op.Focus? && !op.LoadMacros?
    ensures SameSetup(s, Perform(s, op))
  {
    match op
    case Read(r) => ProcessSetup(s, r.ev, false, r.now, r.idle);
    case Resync(rs) => SyncedSetup(Flush(s), rs);
    case Regrab(idle) =>
  }

  // ----- The context -----

  /** A change of the app, the url or the title alone is a change of context: everything is let go of,
      and each key that counts as pressed is released once. Without a change nothing happens at all. */
  lemma ContextChangeIs(s: Mapper, app: AppType, url: string, title: string)
    requires Inv(s)
    ensures var s' := SetContext(s, app, url, title);
            && s'.app == app && s'.url == url && s'.title == title
            && if s.app == app && s.url == url && s.title == title then s' == s
               else AtRest(s') && s'.pressed == {}
                    && s'.out == s.out + Releases(Ascending(s.pressed)) && s'.history == s.history + [Cleared]
                    && s' == s.(app := app, url := url, title := title, registry := s'.registry, progress := s'.progress,
                                pressed := s'.pressed, out := s'.out, history := s'.history)
  {
    var s1 := s.(app := app, url := url, title := title);
    NothingLeft(s);
    hide Ascending, VisitOrder, Inv;
  }

  lemma {:induction false} AscendingOnce(s: set<nat>)
    ensures forall j, k | 0 <= j < k < |Ascending(s)| :: Ascending(s)[j] < Ascending(s)[k]
    ensures forall c: nat :: c in Ascending(s) <==> c in s
  {
    if s != {} {
      var m := Greatest(s);
      var before := Ascending(s - {m});
      AscendingOnce(s - {m});
      assert Ascending(s) == before + [m];
      assert forall j | 0 <= j < |before| :: before[j] in before;
    }
    forall c: nat
      ensures c in Ascending(s) <==> c in s
    {
      AscendingElements(s, c);
    }
  }

  ghost predicate LatestFocus(ops: seq<Op>, k: int)
  {
    0 <= k < |ops| && ops[k].Focus? && forall j | k < j < |ops| :: !ops[j].Focus?
  }

  ghost predicate NoFocus(ops: seq<Op>)
  {
    forall k | 0 <= k < |ops| :: !ops[k].Focus?
  }

  lemma FocusSnoc(ops: seq<Op>, op: Op)
    ensures NoFocus(ops + [op]) <==> NoFocus(ops) && !op.Focus?
    ensures forall k | LatestFocus(ops + [op], k) :: if k == |ops| then op.Focus? else LatestFocus(ops, k) && !op.Focus?
  {
    var all := ops + [op];
    assert all[|ops|] == op && forall j | 0 <= j < |ops| :: all[j] == ops[j];
  }

  lemma PerformContext(s: Mapper, op: Op)
    ensures var s' := Perform(s, op);
            if op.Focus? then s'.app == op.app && s'.url == op.url && s'.title == op.title
            else s'.app == s.app && s'.url == s.url && s'.title == s.title
  {
    if !op.Focus? && !op.LoadMacros? {
      PerformSetup(s, op);
    }
    hide Process, Synced, Flush, Ascending, VisitOrder, ShippedMacros.Shipped;
  }

  /** Over every run, the context is that of the latest report of one. */
  lemma {:induction false} ContextOverRuns(s: Mapper, ops: seq<Op>)
    ensures var s' := Run(s, ops);
            && (forall k | LatestFocus(ops, k) :: s'.app == ops[k].app && s'.url == ops[k].url && s'.title == ops[k].title)
            && (NoFocus(ops) ==> s'.app == s.app && s'.url == s.url && s'.title == s.title)
  {
    if ops != [] {
      var before, op := ops[..|ops| - 1], ops[|ops| - 1];
      assert ops == before + [op];
      ContextOverRuns(s, before);
      FocusSnoc(before, op);
      PerformContext(Run(s, before), op);
      hide Perform, LatestFocus, NoFocus;
    }
  }

  // ----- The macros -----

  function MacrosOf(macros: Macros, app: AppType): Option<seq<KeyAction>>
  {
    if app in macros then Some(macros[app]) else None
  }

  predicate LoadsFor(op: Op, app: AppType)
  {
    op.LoadMacros? && app in op.overlay
  }

  ghost predicate LatestFor(ops: seq<Op>, app: AppType, k: int)
  {
    0 <= k < |ops| && LoadsFor(ops[k], app) && forall j | k < j < |ops| :: !LoadsFor(ops[j], app)
  }

  ghost predicate NoneFor(ops: seq<Op>, app: AppType)
  {
    forall k | 0 <= k < |ops| :: !LoadsFor(ops[k], app)
  }

  ghost predicate NoReload(ops: seq<Op>)
  {
    forall k | 0 <= k < |ops| :: !ops[k].LoadMacros?
  }

  lemma LoadsSnoc(ops: seq<Op>, op: Op, app: AppType)
    ensures NoReload(ops + [op]) <==> NoReload(ops) && !op.LoadMacros?
    ensures NoneFor(ops + [op], app) <==> NoneFor(ops, app) && !LoadsFor(op, app)
    ensures forall k | LatestFor(ops + [op], app, k) ::
              if k == |ops| then LoadsFor(op, app) else LatestFor(ops, app, k) && !LoadsFor(op, app)
  {
    hide LoadsFor;
    var all := ops + [op];
    assert all[|ops|] == op && forall j | 0 <= j < |ops| :: all[j] == ops[j];
  }

  lemma AllAppsShipped(app: AppType)
    ensures app in ShippedMacros.Shipped
  {
    hide ShippedMacros.ApplyOverrides;
  }

  /** What one operation makes of the macros of an app. */
  lemma PerformMacros(s: Mapper, op: Op, app: AppType)
    ensures var s' := Perform(s, op);
            && (s'.macros == map[] <==> s.macros == map[] && !op.LoadMacros?)
            && MacrosOf(s'.macros, app) ==
                 if LoadsFor(op, app) then Some(op.overlay[app])
                 else if op.LoadMacros? && s.macros == map[] then MacrosOf(ShippedMacros.Shipped, app)
                 else MacrosOf(s.macros, app)
  {
    match op
    case LoadMacros(overlay) => ReloadMacros(s, overlay, app); ReloadNotEmpty(s, overlay);
    case Focus(a, url, title) => FocusMacros(s, a, url, title);
    case _ =>
      PerformSetup(s, op);
      hide Perform;
  }

  lemma FocusMacros(s: Mapper, app: AppType, url: string, title: string)
    ensures SetContext(s, app, url, title).macros == s.macros
  {
  }

  lemma ReloadMacros(s: Mapper, overlay: Macros, app: AppType)
    ensures var macros := Reload(s, overlay).macros;
            MacrosOf(macros, app) ==
                 if app in overlay then Some(overlay[app])
                 else MacrosOf(if s.macros == map[] then ShippedMacros.Shipped else s.macros, app)
  {
    hide ShippedMacros.Shipped;
  }

  lemma ReloadNotEmpty(s: Mapper, overlay: Macros)
    ensures Reload(s, overlay).macros != map[]
  {
    AllAppsShipped(OTHER);
    hide ShippedMacros.Shipped;
    var defaults := if s.macros == map[] then ShippedMacros.Shipped else s.macros;
    assert defaults != map[];
    var a :| a in defaults;
    assert a in defaults + overlay;
  }

  /** Over every run, the macros of an app are those that the latest reload which has any for it brought.
      Without such a reload they are those it began with, or the shipped ones if it began without macros
      and there was a reload at all. */
  lemma {:induction false} MacrosOverRuns(s: Mapper, ops: seq<Op>, app: AppType)
    ensures var found := MacrosOf(Run(s, ops).macros, app);
            && (forall k | LatestFor(ops, app, k) :: found == Some(ops[k].overlay[app]))
            && (NoneFor(ops, app) ==>
                  found == MacrosOf(if s.macros == map[] && !NoReload(ops) then ShippedMacros.Shipped else s.macros, app))
    ensures Run(s, ops).macros == map[] <==> s.macros == map[] && NoReload(ops)
  {
    if ops != [] {
      var before, op := ops[..|ops| - 1], ops[|ops| - 1];
      assert ops == before + [op];
      MacrosOverRuns(s, before, app);
      LoadsSnoc(before, op, app);
      PerformMacros(Run(s, before), op, app);
      hide Perform, NoneFor, NoReload, MacrosOf, ShippedMacros.Shipped;
    }
  }

  // ----- ScrollLock presses -----

  /** The presses of the series under way after ScrollLock presses at the times `ts`: a press more than
      a second after the first of a series begins a new one, and the third of a series ends it. */
  function Series(ts: seq<nat>): (r: seq<nat>)
    ensures |r| <= 2
  {
    if ts == [] then [] else
    var series, t := Series(ts[..|ts| - 1]), ts[|ts| - 1];
    if series != [] && t > series[0] + 1_000_000_000 then [t]
    else if |series| == 2 then []
    else series + [t]
  }

  /** A press at time `t` is the third of a series. */
  predicate IsThird(ts: seq<nat>, t: nat)
  {
    |Series(ts)| == 2 && t <= Series(ts)[0] + 1_000_000_000
  }

  function ScrollTimesIn(rs: seq<Reading>): seq<nat>
  {
    if rs == [] then [] else
    var r := rs[|rs| - 1];
    ScrollTimesIn(rs[..|rs| - 1]) + if Press(r.ev, 70) then [r.now] else []
  }

  /** When ScrollLock was pressed during an operation. */
  function ScrollTimesOf(op: Op): seq<nat>
  {
    match op
    case Read(r) => ScrollTimesIn([r])
    case Resync(rs) => ScrollTimesIn(rs)
    case _ => []
  }

  /** When ScrollLock was pressed during a run, resyncs included. */
  function ScrollTimes(ops: seq<Op>): seq<nat>
  {
    if ops == [] then [] else
    ScrollTimes(ops[..|ops| - 1]) + ScrollTimesOf(ops[|ops| - 1])
  }

  /** The mapper's count is that of the series under way. */
  ghost predicate Counts(s: Mapper, ts: seq<nat>)
  {
    s.scrollCount == |Series(ts)| && (Series(ts) != [] ==> s.scrollFirst == Series(ts)[0])
  }

  lemma EmergencyCounts(s: Mapper, ts: seq<nat>, ev: Event, now: nat)
    requires Counts(s, ts)
    ensures Counts(Emergency(s, ev, now), if Press(ev, 70) then ts + [now] else ts)
  {
    assert (ts + [now])[..|ts|] == ts;
    EmergencyFrame(s, ev, now);
  }

  lemma ProcessCounts(s: Mapper, ts: seq<nat>, r: Reading, skip: bool)
    requires Counts(s, ts)
    ensures Counts(Process(s, r.ev, skip, r.now, r.idle), ts + ScrollTimesIn([r]))
  {
    EmergencyCounts(s, ts, r.ev, r.now);
    ProcessSetup(s, r.ev, skip, r.now, r.idle);
    hide Process, Emergency, Series;
    assert [r][..0] == [] && ScrollTimesIn([]) == [];
    assert ScrollTimesIn([r]) == [] + if Press(r.ev, 70) then [r.now] else [];
    assert ts + ScrollTimesIn([r]) == if Press(r.ev, 70) then ts + [r.now] else ts;
  }

  lemma {:induction false} SyncedCounts(s: Mapper, ts: seq<nat>, rs: seq<Reading>)
    requires Counts(s, ts)
    ensures Counts(Synced(s, rs), ts + ScrollTimesIn(rs))
  {
    hide Counts, Process;
    if rs == [] {
      assert ts + [] == ts;
    } else {
      var before, r := rs[..|rs| - 1], rs[|rs| - 1];
      SyncedCounts(s, ts, before);
      ProcessCounts(Synced(s, before), ts + ScrollTimesIn(before), r, true);
      assert [r][..0] == [];
      assert ts + ScrollTimesIn(rs) == ts + ScrollTimesIn(before) + ScrollTimesIn([r]);
    }
  }

  lemma PerformCounts(s: Mapper, ts: seq<nat>, op: Op)
    requires Counts(s, ts)
    ensures Counts(Perform(s, op), ts + ScrollTimesOf(op))
  {
    hide Process, Series, ScrollTimesIn, Ascending, VisitOrder, FlushClaims, Discard, ResetAll, ShippedMacros.Shipped;
    match op
    case Read(r) => ProcessCounts(s, ts, r, false);
    case Resync(rs) => SyncedCounts(Flush(s), ts, rs);
    case _ => assert ts + [] == ts;
  }

  lemma {:induction false} RunCounts(s: Mapper, ops: seq<Op>)
    requires s.scrollCount == 0
    ensures Counts(Run(s, ops), ScrollTimes(ops))
  {
    if ops != [] {
      var before, op := ops[..|ops| - 1], ops[|ops| - 1];
      RunCounts(s, before);
      PerformCounts(Run(s, before), ScrollTimes(before), op);
      hide Counts, Perform, ScrollTimesOf;
    } else {
      NoSeries(s);
    }
  }

  lemma NoSeries(s: Mapper)
    requires s.scrollCount == 0
    ensures Counts(s, [])
  {
  }

  /** Over every run, an event read next leaves the devices given back exactly if they were, or it is a
      Pause press, a NumLock press that turns NumLock on, or a ScrollLock press that is the third of a
      series. */
  lemma GivenBackOverRuns(s: Mapper, ops: seq<Op>, r: Reading)
    requires s.scrollCount == 0
    ensures Run(s, ops + [Read(r)]).monitoring
       <==> || Run(s, ops).monitoring || Press(r.ev, KEY_PAUSE) || (Press(r.ev, KEY_NUMLOCK) && !Run(s, ops).numLock)
            || (Press(r.ev, 70) && IsThird(ScrollTimes(ops), r.now))
  {
    hide Process, ScrollTimes, Series;
    var all := ops + [Read(r)];
    assert all[..|all| - 1] == ops;
    RunCounts(s, ops);
    ReachesMacrosIff(Run(s, ops), r.ev, false, r.now, r.idle);
  }
}
