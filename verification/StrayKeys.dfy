/** Keys left down on the virtual device that no longer count as pressed. */
module StrayKeys {
  import opened InputEvents
  import opened Suppression
  import opened MacroEngine
  import opened Pipeline
  import opened StateInvariant
  import opened EventOrder
  import opened RunOrder
  import opened StuckKeys
  import opened EmergencyUngrab

  /** Key `c` is down outside, or a press of it is withheld and may yet be replayed. */
  ghost predicate Held(s: Mapper, c: nat)
  {
    DownOutside(s.out, c) || exists k :: k in Bucket(s.registry, c) && Presses(k.ev, c)
  }

  /** The key is held but does not count as pressed: no context change will release it. */
  ghost predicate Stray(s: Mapper, c: nat)
  {
    Held(s, c) && c !in s.pressed
  }

  /** All stray keys are in `stray`. */
  ghost predicate Confined(s: Mapper, stray: set<nat>)
  {
    forall c: nat :: Stray(s, c) ==> c in stray
  }

  lemma HeldIsBacked(s: Mapper, c: nat, down: bool)
    ensures Backed(s.registry, s.out, c, down) <==> (Held(s, c) ==> down)
  {
    hide DownOutside;
  }

  // ----- What makes a key stray -----

  /** A release is read while the devices are given back, or is taken for a G-key: it goes nowhere. */
  ghost predicate ReleaseGoesNowhere(s: Mapper, ev: Event, skip: bool)
  {
    IsRelease(ev) && (s.monitoring || (!skip && DetectG(s.gToggle, ev).1 > 0))
  }

  /** NumLock is turned off while the devices are grabbed: all keys stop counting as pressed, and then
      the press of NumLock is handed on. */
  ghost predicate NumLockOffGrabbed(s: Mapper, ev: Event)
  {
    Press(ev, KEY_NUMLOCK) && s.numLock && !s.monitoring
  }

  ghost function Strands(s: Mapper, ev: Event, skip: bool): set<nat>
  {
    if ReleaseGoesNowhere(s, ev, skip) || NumLockOffGrabbed(s, ev) then {ev.code} else {}
  }

  /** A context change releases the keys that count as pressed: what is held afterwards was stray. */
  lemma ReleaseAllHolds(s: Mapper, c: nat)
    requires Inv(s)
    ensures Held(ReleaseAll(s), c) ==> Stray(s, c)
  {
    hide Inv, DownOutside;
    HeldIsBacked(s, c, Held(s, c));
    ReleaseAllBackedOn(s, c, Held(s, c));
    HeldIsBacked(ReleaseAll(s), c, Stray(s, c));
  }

  lemma NumLockHolds(s: Mapper, active: bool, idle: bool, c: nat)
    requires Inv(s) && s.numLock != active
    ensures var s' := SetNumLock(s, active, idle);
            (Held(s', c) ==> Stray(s, c)) && s'.pressed == {}
  {
    var s1 := s.(numLock := active);
    var s2 := if active then s1.(monitoring := true) else Grab(s1, idle);
    InvFrame(s, s2);
    SameHeld(s, s2);
    hide Inv, Held;
    ReleaseAllHolds(s2, c);
  }

  lemma ContextOf(s: Mapper, ev: Event, now: nat, idle: bool)
    ensures var s1, s0 := ContextStage(s, ev, now, idle), Track(Emergency(s, ev, now), ev);
            && s0.registry == s.registry && s0.out == s.out && s0.numLock == s.numLock && s0.pressed == Track(s, ev).pressed
            && s1 == if Press(ev, KEY_NUMLOCK) then SetNumLock(s0, !s0.numLock, idle) else s0
  {
    TrackFrame(s, ev, now);
    EmergencyFrame(s, ev, now);
    hide SetNumLock, Emergency;
  }

  /** After the context stage a held key was held before; a press of NumLock releases all the others. */
  lemma ContextHolds(s: Mapper, ev: Event, now: nat, idle: bool, c: nat)
    requires Inv(s)
    ensures var s1 := ContextStage(s, ev, now, idle);
            && (Held(s1, c) ==> Held(s, c))
            && (if Press(ev, KEY_NUMLOCK) then s1.pressed == {} && (Held(s1, c) ==> c !in s.pressed)
                else s1.pressed == Track(s, ev).pressed && s1.registry == s.registry && s1.out == s.out)
  {
    var s0 := Track(Emergency(s, ev, now), ev);
    TrackFrame(s, ev, now);
    InvFrame(s, s0);
    hide Emergency, Inv, Held, SetNumLock, ContextStage;
    ContextOf(s, ev, now, idle);
    SameHeld(s, s0);
    if Press(ev, KEY_NUMLOCK) {
      assert c in s.pressed ==> c in s0.pressed;
      hide Track;
      NumLockHolds(s0, !s0.numLock, idle, c);
    }
  }

  lemma FeedKeeps(s: Mapper, ev: Event, now: nat, skip: bool)
    ensures var s' := Feed(s, ev, now, skip);
            s'.pressed == s.pressed && s'.macros == s.macros && (skip ==> s'.registry == s.registry && s'.out == s.out + [Forwarded(ev)])
  {
    hide ComboSteps;
  }

  lemma FeedHolds(s: Mapper, ev: Event, now: nat, skip: bool, c: nat, was: bool)
    requires Inv(s) && SafeMacros(s.macros) && (skip ==> s.registry == map[])
    requires Held(s, c) ==> was
    ensures Held(Feed(s, ev, now, skip), c) ==> KeyEffect(was, ev, c)
  {
    hide Feed, Inv, SafeMacros, DownOutside, Held, KeyEffect;
    HeldIsBacked(s, c, was);
    if skip {
      FeedKeeps(s, ev, now, skip);
      ForwardedDown(s.out, ev, c);
      ForwardedBacked(s.out, ev, c, was);
    } else {
      FeedBackedOn(s, ev, now, c, was);
    }
    HeldIsBacked(Feed(s, ev, now, skip), c, KeyEffect(was, ev, c));
  }

  lemma ForwardedBacked(out: seq<Output>, ev: Event, c: nat, was: bool)
    requires Backed(map[], out, c, was)
    ensures Backed(map[], out + [Forwarded(ev)], c, KeyEffect(was, ev, c))
  {
    ForwardedDown(out, ev, c);
    hide DownOutside;
  }

  /** The context stage itself strands only the key of a release that goes no further. */
  lemma ContextConfined(s: Mapper, ev: Event, skip: bool, now: nat, idle: bool, stray: set<nat>)
    requires Inv(s) && Confined(s, stray)
    requires ContextStage(s, ev, now, idle).monitoring || (!skip && DetectG(s.gToggle, ev).1 > 0)
    ensures Confined(ContextStage(s, ev, now, idle), stray + Strands(s, ev, skip))
  {
    ContextMonitors(s, ev, now, idle);
    assert IsRelease(ev) ==> !GivesBack(s, ev, now);
    hide Inv, ContextStage, Held, DetectG, GivesBack;
    var s1 := ContextStage(s, ev, now, idle);
    forall c: nat
      ensures Stray(s1, c) ==> c in stray + Strands(s, ev, skip)
    {
      ContextHolds(s, ev, now, idle, c);
      assert Stray(s, c) ==> c in stray;
    }
  }

  lemma TrackFollows(s: Mapper, ev: Event, c: nat, stray: bool)
    requires KeyEffect(c in s.pressed || stray, ev, c)
    ensures c in Track(s, ev).pressed || stray
  {
  }

  /** `s1` is the state in which the event is handed on. */
  lemma FeedConfined(s: Mapper, ev: Event, skip: bool, now: nat, idle: bool, s1: Mapper, stray: set<nat>)
    requires Inv(s1) && SafeMacros(s1.macros) && (skip ==> s1.registry == map[])
    requires Inv(s) && Confined(s, stray) && !s1.monitoring
    requires var s0 := ContextStage(s, ev, now, idle);
             s1.registry == s0.registry && s1.out == s0.out && s1.pressed == s0.pressed && s1.monitoring == s0.monitoring
    ensures Confined(Feed(s1, ev, now, skip), stray + Strands(s, ev, skip))
  {
    ContextMonitors(s, ev, now, idle);
    assert Press(ev, KEY_NUMLOCK) ==> ev.code in Strands(s, ev, skip);
    hide Inv, ContextStage, Held, Feed, SafeMacros, GivesBack, Strands, Track;
    SameHeld(ContextStage(s, ev, now, idle), s1);
    FeedKeeps(s1, ev, now, skip);
    forall c: nat
      ensures Stray(Feed(s1, ev, now, skip), c) ==> c in stray + Strands(s, ev, skip)
    {
      ContextHolds(s, ev, now, idle, c);
      assert Stray(s, c) ==> c in stray;
      if Press(ev, KEY_NUMLOCK) {
        FeedHolds(s1, ev, now, skip, c, c in stray);
      } else {
        FeedHolds(s1, ev, now, skip, c, c in s.pressed || c in stray);
        hide KeyEffect;
        if KeyEffect(c in s.pressed || c in stray, ev, c) {
          TrackFollows(s, ev, c, c in stray);
        }
      }
    }
  }

  /** A key that an event makes stray is one whose release goes nowhere, or NumLock turned off while
      the devices are grabbed. */
  lemma {:induction false} ProcessConfined(s: Mapper, ev: Event, skip: bool, now: nat, idle: bool, stray: set<nat>)
    requires Inv(s) && SafeMacros(s.macros) && Confined(s, stray) && (skip ==> s.registry == map[])
    ensures var s' := Process(s, ev, skip, now, idle);
            Confined(s', stray + Strands(s, ev, skip)) && s'.macros == s.macros
    decreases if KEY_1 <= ev.code <= KEY_6 then 1 else 0
  {
    var s1 := ContextStage(s, ev, now, idle);
    ContextStageInv(s, ev, now, idle);
    ContextMonitors(s, ev, now, idle);
    ContextStageMacros(s, ev, now, idle);
    if skip {
      ContextStageRests(s, ev, now, idle);
    }
    var (g, k) := DetectG(s1.gToggle, ev);
    var s2 := s1.(gToggle := g);
    InvFrame(s1, s2);
    assert k > 0 ==> g == 1 && 1 <= k <= 6 && KEY_1 <= ev.code <= KEY_6;
    hide Inv, ContextStage, Confined, Feed, SafeMacros, DetectG, Strands, GivesBack;
    if s1.monitoring {
      ContextConfined(s, ev, skip, now, idle, stray);
    } else if !skip && k > 0 {
      var wider := stray + Strands(s, ev, skip);
      ContextConfined(s, ev, skip, now, idle, stray);
      SameConfined(s1, s2, wider);
      VirtualStrandsNothing(s2, ev, k);
      ProcessConfined(s2, Virtual(ev, k), false, now, idle, wider);
      assert wider + {} == wider;
    } else {
      FeedConfined(s, ev, skip, now, idle, if skip then s1 else s2, stray);
      FeedKeeps(if skip then s1 else s2, ev, now, skip);
    }
  }

  lemma SameConfined(s: Mapper, s': Mapper, stray: set<nat>)
    requires s'.registry == s.registry && s'.out == s.out && s'.pressed == s.pressed && Confined(s, stray)
    ensures Confined(s', stray)
  {
    SameHeld(s, s');
    hide Held;
    assert forall c: nat :: Stray(s', c) ==> Stray(s, c);
  }

  lemma ContextStageMacros(s: Mapper, ev: Event, now: nat, idle: bool)
    ensures ContextStage(s, ev, now, idle).macros == s.macros
  {
    TrackFrame(s, ev, now);
  }

  lemma VirtualStrandsNothing(s: Mapper, ev: Event, k: nat)
    requires 1 <= k <= 6 && !s.monitoring && s.gToggle == 1
    ensures Strands(s, Virtual(ev, k), false) == {}
  {
  }

  lemma SameHeld(s: Mapper, s': Mapper)
    requires s'.registry == s.registry && s'.out == s.out
    ensures forall c: nat :: Held(s', c) <==> Held(s, c)
  {
    hide DownOutside;
  }

  lemma FlushConfined(s: Mapper, stray: set<nat>)
    requires Inv(s) && Confined(s, stray)
    ensures Confined(Flush(s), stray)
  {
    hide Inv, Held;
    forall c: nat
      ensures Stray(Flush(s), c) ==> c in stray
    {
      HeldIsBacked(s, c, Held(s, c));
      FlushBackedOn(s, c, Held(s, c));
      HeldIsBacked(Flush(s), c, Held(s, c));
      assert Stray(s, c) ==> c in stray;
    }
  }

  lemma SetContextConfined(s: Mapper, app: AppType, url: string, title: string, stray: set<nat>)
    requires Inv(s) && Confined(s, stray)
    ensures Confined(SetContext(s, app, url, title), stray)
  {
    var s' := SetContext(s, app, url, title);
    if s' != s {
      assert s'.registry == ReleaseAll(s).registry && s'.out == ReleaseAll(s).out;
      SameHeld(s', ReleaseAll(s));
      hide Inv, Held, ReleaseAll, SetContext;
      forall c: nat
        ensures Stray(s', c) ==> c in stray
      {
        ReleaseAllHolds(s, c);
        assert Stray(s, c) ==> c in stray;
      }
    }
  }

  // ----- Runs -----

  ghost function StrandedInSync(s: Mapper, rs: seq<Reading>): set<nat>
  {
    if rs == [] then {} else
    var before, r := rs[..|rs| - 1], rs[|rs| - 1];
    StrandedInSync(s, before) + Strands(Synced(s, before), r.ev, true)
  }

  ghost function StrandedBy(s: Mapper, op: Op): set<nat>
  {
    match op
    case Read(r) => Strands(s, r.ev, false)
    case Resync(rs) => StrandedInSync(Flush(s), rs)
    case _ => {}
  }

  /** The keys stranded during a run. */
  ghost function Stranded(s: Mapper, ops: seq<Op>): set<nat>
  {
    if ops == [] then {} else
    var before := ops[..|ops| - 1];
    Stranded(s, before) + StrandedBy(Run(s, before), ops[|ops| - 1])
  }

  lemma {:induction false} SyncedConfined(s: Mapper, rs: seq<Reading>, stray: set<nat>)
    requires Inv(s) && SafeMacros(s.macros) && Confined(s, stray) && s.registry == map[]
    ensures var s' := Synced(s, rs);
            Inv(s') && Confined(s', stray + StrandedInSync(s, rs)) && s'.macros == s.macros && s'.registry == map[]
  {
    hide Inv, Confined, Process, SafeMacros, Strands;
    if rs == [] {
      assert stray + {} == stray;
    } else {
      var before, r := Synced(s, rs[..|rs| - 1]), rs[|rs| - 1];
      var so := stray + StrandedInSync(s, rs[..|rs| - 1]);
      SyncedConfined(s, rs[..|rs| - 1], stray);
      ProcessConfined(before, r.ev, true, r.now, r.idle, so);
      ProcessInv(before, r.ev, true, r.now, r.idle);
      SkippedKeepsRegistry(before, r.ev, r.now, r.idle);
      assert so + Strands(before, r.ev, true) == stray + StrandedInSync(s, rs);
    }
  }

  lemma PerformConfined(s: Mapper, op: Op, stray: set<nat>)
    requires Inv(s) && SafeMacros(s.macros) && Confined(s, stray)
    requires op.LoadMacros? ==> s.registry == map[] && SafeMacros(op.overlay)
    ensures Confined(Perform(s, op), stray + StrandedBy(s, op)) && SafeMacros(Perform(s, op).macros)
  {
    hide Inv, Confined, Process, SafeMacros, Strands, StrandedInSync;
    match op
    case Read(r) => ProcessConfined(s, r.ev, false, r.now, r.idle, stray);
    case Resync(rs) =>
      FlushRests(s);
      AtRestInv(Flush(s));
      FlushConfined(s, stray);
      SyncedConfined(Flush(s), rs, stray);
    case Focus(app, url, title) =>
      SetContextConfined(s, app, url, title, stray);
      assert stray + {} == stray;
    case Regrab(idle) =>
      SameConfined(s, Grab(s, idle), stray);
      assert stray + {} == stray;
    case LoadMacros(overlay) =>
      ReloadSafe(s, overlay);
      SameConfined(s, Reload(s, overlay), stray);
      assert stray + {} == stray;
  }

  lemma ReloadSafe(s: Mapper, overlay: Macros)
    requires SafeMacros(s.macros) && SafeMacros(overlay)
    ensures SafeMacros(Reload(s, overlay).macros)
  {
    ShippedMacrosAreSafe();
    hide SafeTrigger;
  }

  /** Safe macros at the start and in every reload. */
  ghost predicate AlwaysSafe(s: Mapper, ops: seq<Op>)
  {
    SafeMacros(s.macros) && forall k | 0 <= k < |ops| && ops[k].LoadMacros? :: SafeMacros(ops[k].overlay)
  }

  /** Over every run with safe macros, a key that is down outside, or withheld as pressed, counts as
      pressed unless it was stranded: its release was read while the devices were given back or was
      taken for a G-key, or it is NumLock turned off while the devices were grabbed. */
  lemma {:induction false} StrayKeysWereStranded(s: Mapper, ops: seq<Op>)
    requires Initial(s) && Admissible(s, ops) && AlwaysSafe(s, ops)
    ensures forall c: nat | Held(Run(s, ops), c) :: c in Run(s, ops).pressed || c in Stranded(s, ops)
    ensures Confined(Run(s, ops), Stranded(s, ops)) && SafeMacros(Run(s, ops).macros)
  {
    if ops != [] {
      var before, op := ops[..|ops| - 1], ops[|ops| - 1];
      hide Held, SafeMacros, Strands, StrandedBy, Perform;
      assert forall k | 0 <= k < |before| :: before[k] == ops[k];
      StrayKeysWereStranded(s, before);
      ReachableInv(s, before);
      PerformConfined(Run(s, before), op, Stranded(s, before));
      assert Confined(Run(s, ops), Stranded(s, ops));
      forall c: nat | Held(Run(s, ops), c)
        ensures c in Run(s, ops).pressed || c in Stranded(s, ops)
      {
        assert Stray(Run(s, ops), c) ==> c in Stranded(s, ops);
      }
    }
  }

  // ----- Runs in which nothing is stranded -----

  /** The event neither gives the devices back by Pause or ScrollLock nor strands a key. While they are
      given back, everything is calm. */
  ghost predicate Calm(s: Mapper, ev: Event, skip: bool, now: nat)
  {
    s.monitoring || (!Press(ev, KEY_PAUSE) && !ThirdScrollLock(s, ev, now) && Strands(s, ev, skip) == {})
  }

  ghost predicate CalmSync(s: Mapper, rs: seq<Reading>)
  {
    rs == [] ||
    (var before, r := rs[..|rs| - 1], rs[|rs| - 1];
     CalmSync(s, before) && Calm(Synced(s, before), r.ev, true, r.now))
  }

  ghost predicate CalmOp(s: Mapper, op: Op)
  {
    match op
    case Read(r) => Calm(s, r.ev, false, r.now)
    case Resync(rs) => CalmSync(Flush(s), rs)
    case _ => true
  }

  ghost predicate CalmRun(s: Mapper, ops: seq<Op>)
  {
    ops == [] ||
    (var before := ops[..|ops| - 1];
     CalmRun(s, before) && CalmOp(Run(s, before), ops[|ops| - 1]))
  }

  ghost predicate NothingHeld(s: Mapper)
  {
    forall c: nat :: !Held(s, c)
  }

  /** Nothing is stray, and while the devices are given back nothing is held at all. */
  ghost predicate Quiet(s: Mapper)
  {
    Confined(s, {}) && (s.monitoring ==> NothingHeld(s))
  }

  lemma MonitoringHoldsNothing(s: Mapper, ev: Event, skip: bool, now: nat, idle: bool)
    requires Inv(s) && s.monitoring && NothingHeld(s)
    ensures Quiet(Process(s, ev, skip, now, idle))
  {
    ContextMonitors(s, ev, now, idle);
    var s' := Process(s, ev, skip, now, idle);
    assert s' == ContextStage(s, ev, now, idle) by { hide ContextStage, Feed; }
    hide Process, ContextStage, Held, Inv, GivesBack;
    forall c: nat
      ensures !Held(s', c)
    {
      ContextHolds(s, ev, now, idle, c);
    }
  }

  lemma NumLockOnHoldsNothing(s: Mapper, ev: Event, skip: bool, now: nat, idle: bool)
    requires Inv(s) && Confined(s, {}) && !s.monitoring && Press(ev, KEY_NUMLOCK) && !s.numLock
    ensures Quiet(Process(s, ev, skip, now, idle))
  {
    ContextMonitors(s, ev, now, idle);
    var s' := Process(s, ev, skip, now, idle);
    assert s' == ContextStage(s, ev, now, idle) by { hide ContextStage, Feed; }
    hide Process, ContextStage, Held, Inv;
    forall c: nat
      ensures !Held(s', c)
    {
      ContextHolds(s, ev, now, idle, c);
      assert Stray(s, c) ==> c in {};
    }
  }

  lemma ProcessQuiet(s: Mapper, ev: Event, skip: bool, now: nat, idle: bool)
    requires Inv(s) && SafeMacros(s.macros) && Quiet(s) && (skip ==> s.registry == map[])
    requires Calm(s, ev, skip, now)
    ensures var s' := Process(s, ev, skip, now, idle);
            Quiet(s') && s'.macros == s.macros
  {
    hide Inv, SafeMacros, Process, Confined, NothingHeld, Strands, ThirdScrollLock;
    ProcessConfined(s, ev, skip, now, idle, {});
    ReachesMacrosIff(s, ev, skip, now, idle);
    if s.monitoring {
      MonitoringHoldsNothing(s, ev, skip, now, idle);
    } else if Press(ev, KEY_NUMLOCK) && !s.numLock {
      NumLockOnHoldsNothing(s, ev, skip, now, idle);
    } else {
      assert {} + Strands(s, ev, skip) == {};
    }
  }

  lemma {:induction false} SyncedQuiet(s: Mapper, rs: seq<Reading>)
    requires Inv(s) && SafeMacros(s.macros) && Quiet(s) && s.registry == map[] && CalmSync(s, rs)
    ensures var s' := Synced(s, rs);
            Inv(s') && Quiet(s') && s'.macros == s.macros && s'.registry == map[]
  {
    hide Inv, Quiet, Process, SafeMacros, Calm;
    if rs != [] {
      var before, r := Synced(s, rs[..|rs| - 1]), rs[|rs| - 1];
      SyncedQuiet(s, rs[..|rs| - 1]);
      ProcessQuiet(before, r.ev, true, r.now, r.idle);
      ProcessInv(before, r.ev, true, r.now, r.idle);
      SkippedKeepsRegistry(before, r.ev, r.now, r.idle);
    }
  }

  /** An operation after which nothing more is held or stray. */
  lemma QuietStep(s: Mapper, s': Mapper)
    requires Quiet(s) && Confined(s', {}) && (s'.monitoring ==> s.monitoring)
    requires forall c: nat :: Held(s', c) ==> Held(s, c)
    ensures Quiet(s')
  {
    hide Held, Confined;
  }

  lemma PerformQuiet(s: Mapper, op: Op)
    requires Inv(s) && SafeMacros(s.macros) && Quiet(s) && CalmOp(s, op)
    requires op.LoadMacros? ==> s.registry == map[] && SafeMacros(op.overlay)
    ensures Quiet(Perform(s, op)) && SafeMacros(Perform(s, op).macros)
  {
    hide Inv, Confined, NothingHeld, Held, Process, SafeMacros, Calm, CalmSync;
    match op
    case Read(r) => ProcessQuiet(s, r.ev, false, r.now, r.idle);
    case Resync(rs) =>
      FlushRests(s);
      AtRestInv(Flush(s));
      FlushConfined(s, {});
      FlushHolds(s);
      QuietStep(s, Flush(s));
      SyncedQuiet(Flush(s), rs);
    case Focus(app, url, title) =>
      SetContextConfined(s, app, url, title, {});
      SetContextHolds(s, app, url, title);
      QuietStep(s, SetContext(s, app, url, title));
    case Regrab(idle) =>
      SameConfined(s, Grab(s, idle), {});
      SameHeld(s, Grab(s, idle));
      QuietStep(s, Grab(s, idle));
    case LoadMacros(overlay) =>
      ReloadSafe(s, overlay);
      SameConfined(s, Reload(s, overlay), {});
      SameHeld(s, Reload(s, overlay));
      QuietStep(s, Reload(s, overlay));
  }

  lemma FlushHolds(s: Mapper)
    requires Inv(s)
    ensures forall c: nat :: Held(Flush(s), c) ==> Held(s, c)
  {
    hide Inv, Held;
    forall c: nat
      ensures Held(Flush(s), c) ==> Held(s, c)
    {
      HeldIsBacked(s, c, Held(s, c));
      FlushBackedOn(s, c, Held(s, c));
      HeldIsBacked(Flush(s), c, Held(s, c));
    }
  }

  lemma SetContextHolds(s: Mapper, app: AppType, url: string, title: string)
    requires Inv(s)
    ensures forall c: nat :: Held(SetContext(s, app, url, title), c) ==> Held(s, c)
    ensures SetContext(s, app, url, title).monitoring == s.monitoring
  {
    var s' := SetContext(s, app, url, title);
    if s' != s {
      assert s'.registry == ReleaseAll(s).registry && s'.out == ReleaseAll(s).out;
      SameHeld(s', ReleaseAll(s));
      hide Inv, Held, ReleaseAll, SetContext;
      forall c: nat
        ensures Held(s', c) ==> Held(s, c)
      {
        ReleaseAllHolds(s, c);
      }
    }
  }

  /** Over every run with safe macros in which, while the devices are grabbed, Pause is not pressed, nor
      ScrollLock a third time, no digit is released as a G-key, and NumLock is not turned off: each key
      that is down outside counts as pressed, so the next context change releases it. */
  lemma {:induction false} DownMeansPressed(s: Mapper, ops: seq<Op>)
    requires Initial(s) && Admissible(s, ops) && AlwaysSafe(s, ops) && CalmRun(s, ops)
    ensures forall c: nat | DownOutside(Run(s, ops).out, c) :: c in Run(s, ops).pressed
    ensures Quiet(Run(s, ops)) && SafeMacros(Run(s, ops).macros)
  {
    if ops != [] {
      var before, op := ops[..|ops| - 1], ops[|ops| - 1];
      hide DownOutside, SafeMacros, CalmOp, Perform;
      assert forall k | 0 <= k < |before| :: before[k] == ops[k];
      DownMeansPressed(s, before);
      ReachableInv(s, before);
      hide Quiet;
      PerformQuiet(Run(s, before), op);
      QuietMeansPressed(Run(s, ops));
    }
  }

  lemma QuietMeansPressed(s: Mapper)
    requires Quiet(s)
    ensures forall c: nat | DownOutside(s.out, c) :: c in s.pressed
  {
    forall c: nat | DownOutside(s.out, c)
      ensures c in s.pressed
    {
      assert Stray(s, c) ==> c in {};
    }
  }

  // ----- What giving the devices back strands -----

  /** The readings, one after the other. */
  ghost function ReadAll(s: Mapper, rs: seq<Reading>): Mapper
  {
    if rs == [] then s else
    var r := rs[|rs| - 1];
    Process(ReadAll(s, rs[..|rs| - 1]), r.ev, false, r.now, r.idle)
  }

  /** Pause or a third ScrollLock gives the devices back, and what is held then stays held. */
  lemma GivingBackHolds(s: Mapper, ev: Event, now: nat, idle: bool)
    requires s.monitoring || Press(ev, KEY_PAUSE) || ThirdScrollLock(s, ev, now)
    requires !Press(ev, KEY_NUMLOCK)
    ensures var s' := Process(s, ev, false, now, idle);
            s'.monitoring && s'.registry == s.registry && s'.out == s.out
  {
    ContextMonitors(s, ev, now, idle);
    ContextOf(s, ev, now, idle);
    hide ContextStage, Feed, Track, Emergency;
  }

  lemma {:induction false} MonitoringHolds(s: Mapper, rs: seq<Reading>)
    requires s.monitoring && forall k | 0 <= k < |rs| :: !Press(rs[k].ev, KEY_NUMLOCK)
    ensures var s' := ReadAll(s, rs);
            s'.monitoring && s'.registry == s.registry && s'.out == s.out
  {
    hide Process;
    if rs != [] {
      var r := rs[|rs| - 1];
      MonitoringHolds(s, rs[..|rs| - 1]);
      GivingBackHolds(ReadAll(s, rs[..|rs| - 1]), r.ev, r.now, r.idle);
    }
  }

  /** A Pause press or a third ScrollLock press strands exactly the keys that are down outside, or
      withheld as pressed, when it is read: once the devices are grabbed again, each of them is held
      and does not count as pressed. (NumLock, which releases keys, is not pressed in between.) */
  lemma GivingBackStrandsIff(s: Mapper, first: Reading, rs: seq<Reading>, idle: bool, c: nat)
    requires Press(first.ev, KEY_PAUSE) || ThirdScrollLock(s, first.ev, first.now)
    requires forall k | 0 <= k < |rs| :: !Press(rs[k].ev, KEY_NUMLOCK)
    requires !Grab(ReadAll(Process(s, first.ev, false, first.now, first.idle), rs), idle).monitoring
    ensures Stray(Grab(ReadAll(Process(s, first.ev, false, first.now, first.idle), rs), idle), c) <==> Held(s, c)
  {
    hide Process, ReadAll, Held;
    var s1 := Process(s, first.ev, false, first.now, first.idle);
    GivingBackHolds(s, first.ev, first.now, first.idle);
    MonitoringHolds(s1, rs);
    var s2 := ReadAll(s1, rs);
    SameHeld(s, Grab(s2, idle));
    assert s2.pressed == {};
  }

  // ----- The three ways to strand a key -----

  /** The mapper is grabbed and the active app has no macros. */
  ghost predicate Plain(s: Mapper, g: nat, pressed: set<nat>, out: seq<Output>)
  {
    !s.monitoring && !s.numLock && s.app !in s.macros && s.gToggle == g && s.pressed == pressed && s.out == out
  }

  predicate Ordinary(ev: Event)
  {
    ev.IsKey() && ev.code != KEY_PAUSE && ev.code != KEY_SCROLLLOCK && ev.code != KEY_NUMLOCK
  }

  /** Such an event is tracked and forwarded. */
  lemma PlainStep(s: Mapper, ev: Event, g: nat, pressed: set<nat>, out: seq<Output>)
    requires Plain(s, g, pressed, out) && Ordinary(ev) && DetectG(g, ev).1 == 0
    ensures var after := if ev.value == 1 then pressed + {ev.code} else if ev.value == 0 then pressed - {ev.code} else pressed;
            Plain(Process(s, ev, false, 0, false), DetectG(g, ev).0, after, out + [Forwarded(ev)])
  {
    var s1 := Track(Emergency(s, ev, 0), ev);
    assert Emergency(s, ev, 0) == s;
    assert ContextStage(s, ev, 0, false) == s1;
    hide ContextStage, DetectG, Emergency;
  }

  function Key(code: nat, value: int): Event
  {
    Event(EV_KEY, code, value, 0)
  }

  lemma KeyDown(out: seq<Output>, code: nat, value: int, c: nat)
    ensures DownOutside(out + [Forwarded(Key(code, value))], c) == KeyEffect(DownOutside(out, c), Key(code, value), c)
  {
    ForwardedDown(out, Key(code, value), c);
  }

  lemma PauseStep(s: Mapper, ev: Event, pressed: set<nat>, out: seq<Output>)
    requires s.pressed == pressed && s.out == out && ev.IsKey() && ev.code != KEY_NUMLOCK
    requires s.monitoring || Press(ev, KEY_PAUSE)
    ensures var s' := Process(s, ev, false, 0, false);
            s'.monitoring && s'.out == out
            && s'.pressed == if ev.value == 1 then pressed + {ev.code} else if ev.value == 0 then pressed - {ev.code} else pressed
  {
    GivingBackHolds(s, ev, 0, false);
    ContextMonitors(s, ev, 0, false);
    ContextOf(s, ev, 0, false);
    hide ContextStage, Emergency, Feed;
  }

  /** Press a key, press Pause, release both: the key stays down outside, nothing counts as pressed,
      and once the devices are grabbed no context change releases it. */
  lemma PauseStrands(s: Mapper, c: nat, app: AppType, url: string, title: string)
    requires Initial(s) && Plain(s, 1, {}, []) && Ordinary(Key(c, 1))
    ensures var s1 := Process(s, Key(c, 1), false, 0, false);
            var s2 := Process(s1, Key(KEY_PAUSE, 1), false, 0, false);
            var s3 := Process(s2, Key(c, 0), false, 0, false);
            var s4 := Process(s3, Key(KEY_PAUSE, 0), false, 0, false);
            && DownOutside(s4.out, c) && s4.pressed == {} && !Grab(s4, true).monitoring
            && DownOutside(SetContext(Grab(s4, true), app, url, title).out, c)
  {
    assert DetectG(1, Key(c, 1)).1 == 0;
    hide Process, DetectG, DownOutside;
    var s1 := Process(s, Key(c, 1), false, 0, false);
    var s2 := Process(s1, Key(KEY_PAUSE, 1), false, 0, false);
    var s3 := Process(s2, Key(c, 0), false, 0, false);
    var s4 := Process(s3, Key(KEY_PAUSE, 0), false, 0, false);
    PlainStep(s, Key(c, 1), 1, {}, []);
    KeyDown([], c, 1, c);
    PauseStep(s1, Key(KEY_PAUSE, 1), {c}, s1.out);
    PauseStep(s2, Key(c, 0), {c, KEY_PAUSE}, s1.out);
    PauseStep(s3, Key(KEY_PAUSE, 0), {KEY_PAUSE}, s1.out);
    assert {} + {c} == {c} && {c} + {KEY_PAUSE} == {c, KEY_PAUSE};
    assert {c, KEY_PAUSE} - {c} == {KEY_PAUSE} && {KEY_PAUSE} - {KEY_PAUSE} == {};
    assert Ascending({}) == [] && s4.out + Releases([]) == s4.out;
  }

  /** A digit pressed before the G-key sequence and released at its end: the release is taken for the
      G-key, and the digit stays down outside without counting as pressed. */
  lemma DigitReleaseStrands(s: Mapper, out: seq<Output>, pressed: set<nat>)
    requires Plain(s, 5, pressed, out) && DownOutside(out, KEY_1)
    ensures var s' := Process(s, Key(KEY_1, 0), false, 0, false);
            DownOutside(s'.out, KEY_1) && KEY_1 !in s'.pressed
  {
    DigitTurnsVirtual(s, Key(KEY_1, 0), pressed, out);
    KeyDown(out, 1001, 0, KEY_1);
    hide Process;
  }

  /** In state 5 a digit, pressed or released, is forwarded as the virtual key. */
  lemma DigitTurnsVirtual(s: Mapper, ev: Event, pressed: set<nat>, out: seq<Output>)
    requires Plain(s, 5, pressed, out) && ev.IsKey() && ev.code == KEY_1 && (ev.value == 0 || ev.value == 1)
    ensures Plain(Process(s, ev, false, 0, false), 1,
                  if ev.value == 1 then pressed + {KEY_1} + {1001} else pressed - {KEY_1} - {1001}, out + [Forwarded(Virtual(ev, 1))])
  {
    var s1 := Track(Emergency(s, ev, 0), ev);
    assert Emergency(s, ev, 0) == s;
    assert ContextStage(s, ev, 0, false) == s1 && DetectG(5, ev) == (1, 1);
    assert DetectG(1, Virtual(ev, 1)) == (1, 0);
    PlainStep(s1.(gToggle := 1), Virtual(ev, 1), 1, s1.pressed, out);
    hide ContextStage, DetectG, Emergency, Feed;
  }

  /** The whole sequence from the start: digit, Ctrl, Shift, Ctrl and Shift pressed, digit released. */
  lemma DigitStrandsFromStart(s: Mapper)
    requires Initial(s) && Plain(s, 1, {}, [])
    ensures var s1 := Process(s, Key(KEY_1, 1), false, 0, false);
            var s2 := Process(s1, Key(KEY_LEFTCTRL, 1), false, 0, false);
            var s3 := Process(s2, Key(KEY_LEFTSHIFT, 1), false, 0, false);
            var s4 := Process(s3, Key(KEY_LEFTCTRL, 1), false, 0, false);
            var s5 := Process(s4, Key(KEY_LEFTSHIFT, 1), false, 0, false);
            var s6 := Process(s5, Key(KEY_1, 0), false, 0, false);
            DownOutside(s6.out, KEY_1) && KEY_1 !in s6.pressed
  {
    hide Process, DownOutside;
    var s1 := Process(s, Key(KEY_1, 1), false, 0, false);
    var s2 := Process(s1, Key(KEY_LEFTCTRL, 1), false, 0, false);
    var s3 := Process(s2, Key(KEY_LEFTSHIFT, 1), false, 0, false);
    var s4 := Process(s3, Key(KEY_LEFTCTRL, 1), false, 0, false);
    var s5 := Process(s4, Key(KEY_LEFTSHIFT, 1), false, 0, false);
    PlainStep(s, Key(KEY_1, 1), 1, {}, []);
    KeyDown([], KEY_1, 1, KEY_1);
    PlainStep(s1, Key(KEY_LEFTCTRL, 1), 1, s1.pressed, s1.out);
    KeyDown(s1.out, KEY_LEFTCTRL, 1, KEY_1);
    PlainStep(s2, Key(KEY_LEFTSHIFT, 1), 2, s2.pressed, s2.out);
    KeyDown(s2.out, KEY_LEFTSHIFT, 1, KEY_1);
    PlainStep(s3, Key(KEY_LEFTCTRL, 1), 3, s3.pressed, s3.out);
    KeyDown(s3.out, KEY_LEFTCTRL, 1, KEY_1);
    PlainStep(s4, Key(KEY_LEFTSHIFT, 1), 4, s4.pressed, s4.out);
    KeyDown(s4.out, KEY_LEFTSHIFT, 1, KEY_1);
    DigitReleaseStrands(s5, s5.out, s5.pressed);
  }

  /** A G-key is pressed and its digit released as a digit: the virtual key stays down outside and goes
      on counting as pressed, so that a grab fails until the next context change. */
  lemma VirtualKeyStays(s: Mapper, pressed: set<nat>, out: seq<Output>)
    requires Plain(s, 5, pressed, out)
    ensures var s1 := Process(s, Key(KEY_1, 1), false, 0, false);
            var s2 := Process(s1, Key(KEY_1, 0), false, 0, false);
            && DownOutside(s2.out, 1001) && 1001 in s2.pressed
            && Grab(s2.(monitoring := true), true).monitoring
  {
    hide Process, DownOutside;
    var s1 := Process(s, Key(KEY_1, 1), false, 0, false);
    DigitTurnsVirtual(s, Key(KEY_1, 1), pressed, out);
    KeyDown(out, 1001, 1, 1001);
    PlainStep(s1, Key(KEY_1, 0), 1, s1.pressed, s1.out);
    KeyDown(s1.out, KEY_1, 0, 1001);
  }

  /** NumLock turned off while the devices are grabbed: its press is forwarded and counts as nothing. */
  lemma NumLockOffStrands(s: Mapper)
    requires !s.monitoring && s.numLock && s.app !in s.macros
    ensures var s' := Process(s, Key(KEY_NUMLOCK, 1), false, 0, false);
            DownOutside(s'.out, KEY_NUMLOCK) && s'.pressed == {}
  {
    var ev := Key(KEY_NUMLOCK, 1);
    var s1 := ContextStage(s, ev, 0, false);
    ContextMonitors(s, ev, 0, false);
    ContextOf(s, ev, 0, false);
    ContextStageMacros(s, ev, 0, false);
    assert s1.pressed == {} && s1.app == s.app;
    hide ContextStage, DownOutside;
    assert DetectG(s1.gToggle, ev) == (1, 0);
    KeyDown(s1.out, KEY_NUMLOCK, 1, KEY_NUMLOCK);
  }
}
