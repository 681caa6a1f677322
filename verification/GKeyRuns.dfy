/** The G-key automaton over whole runs of the mapper. */
module GKeyRuns {
  import opened InputEvents
  import opened Pipeline
  import opened GKeys
  import opened EventOrigin
  import opened EmergencyUngrab

  /** The pipeline with its nesting unrolled: a virtual event goes through the context stage once more
      and then straight to the macros. */
  ghost function Unnested(s: Mapper, ev: Event, now: nat, idle: bool): Mapper
  {
    var s1 := ContextStage(s, ev, now, idle);
    if s1.monitoring then s1 else
    var (g, k) := DetectG(s1.gToggle, ev);
    var s2 := s1.(gToggle := g);
    if k == 0 then Feed(s2, ev, now, false)
    else Feed(ContextStage(s2, Virtual(ev, k), now, idle), Virtual(ev, k), now, false)
  }

  /** The pipeline nests at most once. */
  lemma NestsOnce(s: Mapper, ev: Event, now: nat, idle: bool)
    ensures Process(s, ev, false, now, idle) == Unnested(s, ev, now, idle)
  {
    var s1 := ContextStage(s, ev, now, idle);
    if !s1.monitoring && DetectG(s1.gToggle, ev).1 > 0 {
      var (g, k) := DetectG(s1.gToggle, ev);
      VirtualIsNotDetected(s1, ev, k, now, idle);
      ContextMonitors(s1.(gToggle := g), Virtual(ev, k), now, idle);
      assert !GivesBack(s1.(gToggle := g), Virtual(ev, k), now);
    }
    hide ContextStage, Feed;
  }

  lemma FeedToggle(s: Mapper, ev: Event, now: nat, skip: bool)
    ensures Feed(s, ev, now, skip).gToggle == s.gToggle
  {
  }

  /** What an event does to the automaton. */
  lemma ProcessToggle(s: Mapper, ev: Event, skip: bool, now: nat, idle: bool)
    ensures var s' := Process(s, ev, skip, now, idle);
            s'.gToggle == if skip || s'.monitoring then s.gToggle else DetectG(s.gToggle, ev).0
  {
    ReachesMacrosIff(s, ev, skip, now, idle);
    ContextMonitors(s, ev, now, idle);
    var s1 := ContextStage(s, ev, now, idle);
    var (g, k) := DetectG(s1.gToggle, ev);
    var s2 := s1.(gToggle := g);
    var s3 := ContextStage(s2, Virtual(ev, k), now, idle);
    ContextMonitors(s2, Virtual(ev, k), now, idle);
    NestsOnce(s, ev, now, idle);
    FeedToggle(s1, ev, now, true);
    FeedToggle(s2, ev, now, false);
    FeedToggle(s3, Virtual(ev, k), now, false);
    hide ContextStage, Feed, DetectG;
  }

  lemma {:induction false} SyncedToggle(s: Mapper, rs: seq<Reading>)
    ensures Synced(s, rs).gToggle == s.gToggle
  {
    if rs != [] {
      var r := rs[|rs| - 1];
      SyncedToggle(s, rs[..|rs| - 1]);
      ProcessToggle(Synced(s, rs[..|rs| - 1]), r.ev, true, r.now, r.idle);
    }
  }

  /** The events that passed the G-key stage since the last resync: those read, outside a resync, while
      the devices were grabbed and that did not give them back. */
  ghost function Passed(s: Mapper, ops: seq<Op>): seq<Event>
  {
    if ops == [] then [] else
    var before := ops[..|ops| - 1];
    match ops[|ops| - 1]
    case Read(r) => Passed(s, before) + (if Run(s, ops).monitoring then [] else [r.ev])
    case Resync(_) => []
    case _ => Passed(s, before)
  }

  lemma StateSnoc(es: seq<Event>, ev: Event)
    ensures StateAfter(es + [ev]) == DetectG(StateAfter(es), ev).0
  {
    assert (es + [ev])[..|es|] == es;
  }

  /** Over every run, the automaton is where the events that passed it since the last resync lead. */
  lemma {:induction false} ToggleOverRuns(s: Mapper, ops: seq<Op>)
    requires Initial(s)
    ensures Run(s, ops).gToggle == StateAfter(Passed(s, ops))
  {
    if ops != [] {
      var before := Run(s, ops[..|ops| - 1]);
      ToggleOverRuns(s, ops[..|ops| - 1]);
      hide Process, DetectG, StateAfter;
      match ops[|ops| - 1]
      case Read(r) =>
        ProcessToggle(before, r.ev, false, r.now, r.idle);
        StateSnoc(Passed(s, ops[..|ops| - 1]), r.ev);
        assert Passed(s, ops[..|ops| - 1]) + [] == Passed(s, ops[..|ops| - 1]);
      case Resync(rs) =>
        SyncedToggle(Flush(before), rs);
        NothingPassed();
      case _ =>
    }
  }

  lemma NothingPassed()
    ensures StateAfter([]) == 1
  {
  }

  /** Key `k` comes after Ctrl, Shift, Ctrl, Shift presses begun in state 1, other than by events
      that do not count. */
  ghost predicate EndsSequence(es: seq<Event>, ev: Event, k: nat)
  {
    var rs := RelevantPart(es);
    Digit(ev, k) && EndsInPrefix(rs) && StateAfter(rs[..|rs| - 4]) == 1
  }

  lemma HandedIs(s: Mapper, es: seq<Event>, ev: Event)
    requires s.gToggle == StateAfter(es)
    ensures forall k: nat | EndsSequence(es, ev, k) :: HandedFor(s, ev, false) == Virtual(ev, k)
    ensures (forall k: nat :: !EndsSequence(es, ev, k)) ==> HandedFor(s, ev, false) == ev
  {
    forall k: nat | k > 0
      ensures DetectG(s.gToggle, ev).1 == k <==> EndsSequence(es, ev, k)
    {
      DetectedIff(es, ev, k);
    }
    hide DetectG, StateAfter, RelevantPart, EndsInPrefix;
    assert !EndsSequence(es, ev, 0);
    assert DetectG(s.gToggle, ev).1 > 0 ==> EndsSequence(es, ev, DetectG(s.gToggle, ev).1);
  }

  /** Over every run, while the devices are grabbed, the event read next is handed to the macros as key
      1000 + k, with its own type and value, if it ends the sequence of G-key `k` begun by the events
      that passed since the last resync, and as it is if it ends none. */
  lemma HandedOverRuns(s: Mapper, ops: seq<Op>, r: Reading)
    requires Initial(s) && !Run(s, ops + [Read(r)]).monitoring
    ensures var before, after, es := Run(s, ops), Run(s, ops + [Read(r)]), Passed(s, ops);
            && (forall k: nat | EndsSequence(es, r.ev, k) ::
                  Handed(after.history) == Handed(before.history) + [Event(r.ev.typ, 1000 + k, r.ev.value, r.ev.arrival)])
            && ((forall k: nat :: !EndsSequence(es, r.ev, k)) ==> Handed(after.history) == Handed(before.history) + [r.ev])
  {
    hide Process, Handed, EndsSequence, HandedFor, StateAfter, Passed;
    var before, all := Run(s, ops), ops + [Read(r)];
    assert all[..|all| - 1] == ops;
    ToggleOverRuns(s, ops);
    HandedIs(before, Passed(s, ops), r.ev);
    ReachesMacrosIff(before, r.ev, false, r.now, r.idle);
  }
}
