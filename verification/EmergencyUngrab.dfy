/** Which events reach the macro stage, and when the devices stay given back. */
module EmergencyUngrab {
  import opened InputEvents
  import opened MacroEngine
  import opened Pipeline
  import opened StateInvariant
  import opened EventOrder
  import opened EventOrigin
  import opened RunOrder

  predicate Press(ev: Event, code: nat)
  {
    ev.IsKey() && ev.code == code && ev.value == 1
  }

  /** The third ScrollLock press of a series that began at most a second ago. */
  predicate ThirdScrollLock(s: Mapper, ev: Event, now: nat)
  {
    Press(ev, KEY_SCROLLLOCK) && s.scrollCount >= 2 && now - s.scrollFirst <= SECOND
  }

  /** The event gives the devices back, and is not handed to the macros for it. */
  predicate GivesBack(s: Mapper, ev: Event, now: nat)
  {
    Press(ev, KEY_PAUSE) || ThirdScrollLock(s, ev, now) || (Press(ev, KEY_NUMLOCK) && !s.numLock)
  }

  lemma EmergencyMonitors(s: Mapper, ev: Event, now: nat)
    ensures Emergency(s, ev, now).monitoring <==> s.monitoring || Press(ev, KEY_PAUSE) || ThirdScrollLock(s, ev, now)
  {
  }

  /** A key press that turns NumLock off never grabs the devices: the grab waits until no key counts
      as pressed, and NumLock itself does. */
  lemma ContextMonitors(s: Mapper, ev: Event, now: nat, idle: bool)
    ensures var s' := ContextStage(s, ev, now, idle);
            && (s'.monitoring <==> s.monitoring || GivesBack(s, ev, now))
            && s'.gToggle == s.gToggle && Handed(s'.history) == Handed(s.history) && Written(s'.out) == Written(s.out)
  {
    var s1 := Track(Emergency(s, ev, now), ev);
    TrackFrame(s, ev, now);
    EmergencyMonitors(s, ev, now);
    assert s1.monitoring == Emergency(s, ev, now).monitoring;
    hide Emergency;
    if Press(ev, KEY_NUMLOCK) {
      assert KEY_NUMLOCK in s1.pressed;
      HandedSnoc(s1.history, Cleared);
      WrittenAppend(s1.out, Releases(Ascending(s1.pressed)));
      WrittenReleases(Ascending(s1.pressed));
    }
  }

  lemma FeedHands(s: Mapper, ev: Event, now: nat, skip: bool)
    ensures var s' := Feed(s, ev, now, skip);
            Handed(s'.history) == Handed(s.history) + [ev] && s'.monitoring == s.monitoring
            && s'.scrollCount == s.scrollCount && s'.scrollFirst == s.scrollFirst && s'.numLock == s.numLock
  {
    hide ComboSteps, Handed;
    HandedSnoc(s.history, if skip then Bypassed(ev) else Given(s.app, ev, now, s.numLock));
  }

  /** What is handed to the macro stage while the devices are grabbed: the event, or the virtual
      event in its place. */
  function HandedFor(s: Mapper, ev: Event, skip: bool): Event
  {
    var k := DetectG(s.gToggle, ev).1;
    if !skip && k > 0 then Virtual(ev, k) else ev
  }

  /** An event reaches the macro stage, once, exactly when the devices are grabbed and it is no Pause
      press, no third ScrollLock press within a second and no NumLock press that turns NumLock on;
      otherwise it is never written either. In monitoring no event grabs the devices again. */
  lemma ReachesMacrosIff(s: Mapper, ev: Event, skip: bool, now: nat, idle: bool)
    ensures var s' := Process(s, ev, skip, now, idle);
            && (s'.monitoring <==> s.monitoring || GivesBack(s, ev, now))
            && Handed(s'.history) == Handed(s.history) + (if s'.monitoring then [] else [HandedFor(s, ev, skip)])
            && (s'.monitoring ==> Written(s'.out) == Written(s.out))
  {
    var s1 := ContextStage(s, ev, now, idle);
    ContextMonitors(s, ev, now, idle);
    if !s1.monitoring {
      var (g, k) := DetectG(s1.gToggle, ev);
      var s2 := s1.(gToggle := g);
      if skip {
        FeedHands(s1, ev, now, skip);
      } else if k > 0 {
        ContextMonitors(s2, Virtual(ev, k), now, idle);
        var s3 := ContextStage(s2, Virtual(ev, k), now, idle);
        assert DetectG(s3.gToggle, Virtual(ev, k)) == (1, 0);
        FeedHands(s3.(gToggle := 1), Virtual(ev, k), now, false);
      } else {
        FeedHands(s2, ev, now, skip);
      }
    }
    hide ContextStage, Feed, GivesBack, DetectG;
  }

  /** Whatever the operations hand in carries the arrival of an event they read. */
  ghost predicate HandsRead(s: Mapper, s': Mapper, read: seq<Event>)
  {
    && Handed(s.history) <= Handed(s'.history)
    && forall e | e in Handed(s'.history)[|Handed(s.history)|..] :: exists r :: r in read && r.arrival == e.arrival
  }

  lemma HandsReadThen(s: Mapper, s1: Mapper, s2: Mapper, a: seq<Event>, b: seq<Event>)
    requires HandsRead(s, s1, a) && HandsRead(s1, s2, b)
    ensures HandsRead(s, s2, a + b)
  {
    var h, h1, h2 := Handed(s.history), Handed(s1.history), Handed(s2.history);
    assert h2[|h|..] == h1[|h|..] + h2[|h1|..];
    forall e | e in h2[|h|..]
      ensures exists r :: r in a + b && r.arrival == e.arrival
    {
      if e in h1[|h|..] {
        var r :| r in a && r.arrival == e.arrival;
        assert r in a + b;
      } else {
        var r :| r in b && r.arrival == e.arrival;
        assert r in a + b;
      }
    }
  }

  lemma ProcessHandsRead(s: Mapper, ev: Event, skip: bool, now: nat, idle: bool)
    ensures HandsRead(s, Process(s, ev, skip, now, idle), [ev])
  {
    ReachesMacrosIff(s, ev, skip, now, idle);
    hide Process, DetectG;
    assert ev in [ev];
  }

  lemma {:induction false} SyncedHandsRead(s: Mapper, rs: seq<Reading>)
    ensures HandsRead(s, Synced(s, rs), EventsOfReadings(rs))
  {
    if rs != [] {
      var before, r := Synced(s, rs[..|rs| - 1]), rs[|rs| - 1];
      SyncedHandsRead(s, rs[..|rs| - 1]);
      ProcessHandsRead(before, r.ev, true, r.now, r.idle);
      HandsReadThen(s, before, Synced(s, rs), EventsOfReadings(rs[..|rs| - 1]), [r.ev]);
    }
  }

  lemma PerformHandsRead(s: Mapper, op: Op)
    ensures HandsRead(s, Perform(s, op), EventsOfOp(op))
  {
    hide Process, Handed;
    HandedSnoc(s.history, Cleared);
    match op
    case Read(r) => ProcessHandsRead(s, r.ev, false, r.now, r.idle);
    case Resync(rs) =>
      assert HandsRead(s, Flush(s), []);
      hide Flush, HandsRead;
      SyncedHandsRead(Flush(s), rs);
      HandsReadThen(s, Flush(s), Synced(Flush(s), rs), [], EventsOfReadings(rs));
      assert [] + EventsOfReadings(rs) == EventsOfReadings(rs);
    case _ =>
  }

  lemma {:induction false} RunHandsRead(s: Mapper, ops: seq<Op>)
    ensures HandsRead(s, Run(s, ops), EventsRead(ops))
  {
    if ops != [] {
      var before, op := ops[..|ops| - 1], ops[|ops| - 1];
      RunHandsRead(s, before);
      PerformHandsRead(Run(s, before), op);
      HandsReadThen(s, Run(s, before), Run(s, ops), EventsRead(before), EventsOfOp(op));
    }
  }

  /** A Pause press is not passed through: nothing at all is written. */
  lemma PauseIsSwallowed(s: Mapper, ev: Event, skip: bool, now: nat, idle: bool)
    requires Press(ev, KEY_PAUSE)
    ensures Process(s, ev, skip, now, idle).monitoring && Process(s, ev, skip, now, idle).out == s.out
  {
  }

  /** Of three ScrollLock presses within a second the first two reach the macros, and the third is
      written by nobody. */
  lemma ThirdScrollLockIsSwallowed(s: Mapper, e1: Event, e2: Event, e3: Event, t1: nat, t2: nat, t3: nat)
    requires !s.monitoring && s.scrollCount == 0 && t1 <= t2 <= t3 <= t1 + SECOND
    requires Press(e1, KEY_SCROLLLOCK) && Press(e2, KEY_SCROLLLOCK) && Press(e3, KEY_SCROLLLOCK)
    ensures var s1 := Process(s, e1, false, t1, false);
            var s2 := Process(s1, e2, false, t2, false);
            var s3 := Process(s2, e3, false, t3, false);
            && Handed(s2.history) == Handed(s.history) + [e1, e2]
            && s3.monitoring && Handed(s3.history) == Handed(s2.history) && s3.out == s2.out
  {
    var s1 := Process(s, e1, false, t1, false);
    var s2 := Process(s1, e2, false, t2, false);
    ScrollLockPress(s, e1, t1);
    ScrollLockPress(s1, e2, t2);
    ScrollLockPress(s2, e3, t3);
  }

  lemma ScrollLockPress(s: Mapper, ev: Event, now: nat)
    requires !s.monitoring && Press(ev, KEY_SCROLLLOCK)
    ensures var s', e := Process(s, ev, false, now, false), Emergency(s, ev, now);
            && s'.scrollCount == e.scrollCount && s'.scrollFirst == e.scrollFirst && s'.monitoring == e.monitoring
            && Handed(s'.history) == Handed(s.history) + (if e.monitoring then [] else [ev])
            && (e.monitoring ==> s'.out == s.out)
  {
    var s1 := Track(Emergency(s, ev, now), ev);
    EmergencyFrame(s, ev, now);
    FeedHands(s1.(gToggle := 1), ev, now, false);
    hide Emergency, Feed;
    assert ContextStage(s, ev, now, false) == s1;
    assert DetectG(s1.gToggle, ev) == (1, 0);
  }

  lemma {:induction false} SyncedMonitors(s: Mapper, rs: seq<Reading>)
    requires s.monitoring
    ensures Synced(s, rs).monitoring && Written(Synced(s, rs).out) == Written(s.out)
  {
    if rs != [] {
      var r := rs[|rs| - 1];
      SyncedMonitors(s, rs[..|rs| - 1]);
      ReachesMacrosIff(Synced(s, rs[..|rs| - 1]), r.ev, true, r.now, r.idle);
    }
  }

  /** Once the devices are given back, by Pause, ScrollLock or NumLock, no sequence of events, resyncs,
      context changes and reloads grabs them again; only a request to grab does. */
  lemma {:induction false} OnlyRegrabEndsMonitoring(s: Mapper, ops: seq<Op>)
    requires s.monitoring && forall k | 0 <= k < |ops| :: !ops[k].Regrab?
    ensures Run(s, ops).monitoring
  {
    if ops != [] {
      var before, op := ops[..|ops| - 1], ops[|ops| - 1];
      OnlyRegrabEndsMonitoring(s, before);
      match op
      case Read(r) => ReachesMacrosIff(Run(s, before), r.ev, false, r.now, r.idle);
      case Resync(rs) => SyncedMonitors(Flush(Run(s, before)), rs);
      case _ =>
    }
  }

  lemma NumLockToggles(s: Mapper, ev: Event, now: nat, idle: bool)
    requires Press(ev, KEY_NUMLOCK)
    ensures Process(s, ev, false, now, idle).numLock == !s.numLock
  {
    var s1 := ContextStage(s, ev, now, idle);
    TrackFrame(s, ev, now);
    assert s1.numLock == !s.numLock;
    hide ContextStage, Feed;
    assert DetectG(s1.gToggle, ev) == (1, 0);
    FeedHands(s1.(gToggle := 1), ev, now, false);
  }

  /** In particular, turning NumLock on and off again leaves the devices given back. */
  lemma NumLockOnAndOff(s: Mapper, on: Event, off: Event, t1: nat, t2: nat, idle: bool)
    requires !s.numLock && Press(on, KEY_NUMLOCK) && Press(off, KEY_NUMLOCK)
    ensures var s2 := Process(Process(s, on, false, t1, idle), off, false, t2, idle);
            s2.monitoring && !s2.numLock
  {
    hide Process;
    var s1 := Process(s, on, false, t1, idle);
    NumLockToggles(s, on, t1, idle);
    NumLockToggles(s1, off, t2, idle);
    ReachesMacrosIff(s, on, false, t1, idle);
    ReachesMacrosIff(s1, off, false, t2, idle);
  }
}
