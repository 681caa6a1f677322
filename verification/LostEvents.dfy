/** What becomes of a withheld event when its last owner lets go: it is written, or lost for good. */
module LostEvents {
  import opened InputEvents
  import opened Suppression
  import opened MacroEngine
  import opened EngineInvariant
  import opened Pipeline
  import opened StateInvariant
  import opened EventOrder
  import opened RunOrder
  import opened EventOrigin
  import opened EmergencyUngrab

  // ----- Outputs are only ever appended -----

  lemma ComboStepAppends(e: Engine, i: nat, a: KeyAction, inp: Input)
    ensures e.out <= ComboStep(e, i, a, inp).out
  {
    hide Matches, Breaks, KeyboardOnly, Replay;
  }

  lemma {:induction false} ComboStepsAppend(e: Engine, actions: seq<KeyAction>, from: nat, n: nat, inp: Input)
    requires from <= n <= |actions|
    ensures ComboSteps(e, actions, from, inp).out <= ComboSteps(e, actions, n, inp).out
  {
    hide ComboStep;
    if n > from {
      ComboStepsAppend(e, actions, from, n - 1, inp);
      ComboStepAppends(ComboSteps(e, actions, n - 1, inp), n - 1, actions[n - 1], inp);
    }
  }

  lemma FeedAppends(s: Mapper, ev: Event, now: nat, skip: bool)
    ensures s.out <= Feed(s, ev, now, skip).out
  {
    if !skip && s.app in s.macros {
      var e, actions, inp := EngineOf(s), s.macros[s.app], InputOf(s, ev, now);
      ComboStepsAppend(e, actions, 0, |actions|, inp);
    }
  }

  lemma ContextStageAppends(s: Mapper, ev: Event, now: nat, idle: bool)
    ensures s.out <= ContextStage(s, ev, now, idle).out
  {
    TrackFrame(s, ev, now);
  }

  lemma {:induction false} ProcessAppends(s: Mapper, ev: Event, skip: bool, now: nat, idle: bool)
    ensures s.out <= Process(s, ev, skip, now, idle).out
    decreases if KEY_1 <= ev.code <= KEY_6 then 1 else 0
  {
    var s1 := ContextStage(s, ev, now, idle);
    ContextStageAppends(s, ev, now, idle);
    hide ContextStage, Feed;
    if !s1.monitoring {
      var (g, k) := DetectG(s1.gToggle, ev);
      var s2 := s1.(gToggle := g);
      FeedAppends(if skip then s1 else s2, ev, now, skip);
      if !skip && k > 0 {
        ProcessAppends(s2, Virtual(ev, k), false, now, idle);
      }
    }
  }

  lemma {:induction false} SyncedAppends(s: Mapper, rs: seq<Reading>)
    ensures s.out <= Synced(s, rs).out
  {
    if rs != [] {
      var r := rs[|rs| - 1];
      SyncedAppends(s, rs[..|rs| - 1]);
      ProcessAppends(Synced(s, rs[..|rs| - 1]), r.ev, true, r.now, r.idle);
    }
  }

  lemma {:induction false} RunAppends(s: Mapper, ops: seq<Op>)
    ensures s.out <= Run(s, ops).out
  {
    if ops != [] {
      var before := Run(s, ops[..|ops| - 1]);
      RunAppends(s, ops[..|ops| - 1]);
      match ops[|ops| - 1]
      case Read(r) => ProcessAppends(before, r.ev, false, r.now, r.idle);
      case Resync(rs) => SyncedAppends(Flush(before), rs);
      case _ =>
    }
  }

  /** What was written after a moment stays written. */
  lemma WrittenStays(out: seq<Output>, out': seq<Output>, m: nat, x: Event)
    requires m <= |out| && out <= out' && x in Written(out[m..])
    ensures x in Written(out'[m..])
  {
    assert out'[m..] == out[m..] + out'[|out|..];
    WrittenAppend(out[m..], out'[|out|..]);
  }

  // ----- Gone is gone -----

  predicate Other(e: Event, x: Event)
  {
    e != x
  }

  /** All events but one. */
  ghost function AllBut(x: Event): iset<Event>
  {
    iset e | Other(e, x)
  }

  /** The operations read no event with the arrival of `x`. */
  ghost predicate NotReadAgain(ops: seq<Op>, x: Event)
  {
    forall r | r in EventsRead(ops) :: r.arrival != x.arrival
  }

  /** An event that is not withheld is never written later, in any continuation that does not read it
      again: there is no second copy of it anywhere. */
  lemma NeverWrittenAgain(s: Mapper, ops: seq<Op>, m: nat, x: Event)
    requires Inv(s) && Admissible(s, ops) && Sourced(s.registry, s.out, m, AllBut(x))
    requires NotReadAgain(ops, x)
    ensures m <= |Run(s, ops).out| && x !in Written(Run(s, ops).out[m..])
    ensures forall c, k | k in Bucket(Run(s, ops).registry, c) :: k.ev != x
  {
    var t, s' := Since(m, |Handed(s.history)|, AllBut(x)), Run(s, ops);
    assert Handed(s.history)[|Handed(s.history)|..] == [];
    SourcedAs(s.registry, s.out, m, AllBut(x), s.registry, Sources(s.history, t));
    RunFromSince(s, ops, t);
    RunHandsRead(s, ops);
    assert x !in Sources(s'.history, t);
  }

  // ----- Letting go -----

  /** In its turn the combo gives up what it withholds: by timeout, by NumLock or by a break. */
  predicate LetsGo(a: KeyAction, c: ComboState, inp: Input)
  {
    a.trigger.events != [] &&
    (TimedOut(MarkOf(c), inp.now) || OutcomeOf(a, MarkOf(c), inp.ev, inp.numLock) == Broken)
  }

  /** The turn of a combo that breaks. */
  lemma TurnBreaks(e: Engine, i: nat, a: KeyAction, inp: Input)
    requires a.trigger.events != [] && !TimedOut(MarkOf(Combo(e.combos, i)), inp.now)
    requires OutcomeOf(a, MarkOf(Combo(e.combos, i)), inp.ev, inp.numLock) == Broken
    ensures var e' := ComboStep(e, i, a, inp);
            && e'.registry == Discard(e.registry, {i}) && e'.out == e.out + Replays(Replay(e.registry, i)) && e'.caught == e.caught
            && forall j: nat :: Combo(e'.combos, j) == if j == i then Combo(e.combos, i).(next := 0, suppressed := []) else Combo(e.combos, j)
  {
    hide Replay, Discard;
  }

  /** The event itself apart, no new entry appears, and exactly the replay is written. */
  lemma LetGoTurn(e: Engine, i: nat, a: KeyAction, inp: Input)
    requires LetsGo(a, Combo(e.combos, i), inp)
    ensures var e' := ComboStep(e, i, a, inp);
            && e.out <= e'.out && Written(e'.out[|e.out|..]) == Replay(e.registry, i)
            && forall c, k | k in Bucket(e'.registry, c) :: k in Bucket(Discard(e.registry, {i}), c) || k.ev == inp.ev
  {
    var es, e1 := Replay(e.registry, i), Abandon(e, i);
    WrittenReplays(es);
    assert (e.out + Replays(es))[|e.out|..] == Replays(es);
    if TimedOut(MarkOf(Combo(e.combos, i)), inp.now) {
      assert ComboStep(e, i, a, inp) == React(e1, i, a, inp) by { hide React, Abandon; }
      FreshTurn(e1, i, a, inp);
      assert e1.out == e.out + Replays(es) && e1.registry == Discard(e.registry, {i});
      hide Abandon, React, ComboStep, Replay, Discard;
      var more := React(e1, i, a, inp).out[|e1.out|..];
      assert React(e1, i, a, inp).out[|e.out|..] == Replays(es) + more;
      WrittenAppend(Replays(es), more);
    } else {
      TurnBreaks(e, i, a, inp);
      hide ComboStep, Replay, Discard;
    }
  }

  /** A combo that starts anew writes no event, and adds none but the one at hand. */
  lemma FreshTurn(e: Engine, i: nat, a: KeyAction, inp: Input)
    requires Combo(e.combos, i).next == 0
    ensures var e' := React(e, i, a, inp);
            && e.out <= e'.out && Written(e'.out[|e.out|..]) == []
            && forall c, k | k in Bucket(e'.registry, c) :: k in Bucket(e.registry, c) || k.ev == inp.ev
  {
    var m := MarkOf(Combo(e.combos, i));
    match OutcomeOf(a, m, inp.ev, inp.numLock)
    case Idle =>
    case Matched =>
    case Completed =>
      var fired := [Fired(a, inp.app, inp.at)];
      assert Written(fired) == [] by { assert fired[..0] == []; }
      DiscardMembers(Accept(e, i, a.trigger.events[0], inp).registry, {i});
      assert (e.out + fired)[|e.out|..] == fired;
  }

  /** Nobody but combo `i` withholds anything on the code. */
  ghost predicate Alone(w: Registry, c: nat, i: nat)
  {
    forall k | k in Bucket(w, c) :: k.owner == i
  }

  lemma ReplayedIffAlone(w: Registry, i: nat, x: Event)
    requires WellKeyed(w) && WithheldKey(x, i) in Bucket(w, x.code)
    ensures x in Replay(w, i) <==> Alone(w, x.code, i)
  {
    var b, rest := Bucket(w, x.code), Outside(Bucket(w, x.code), {i});
    ReplayIsOwnEvents(w, i, x.code);
    OwnMember(b, i, x);
    OnCodeMember(Replay(w, i), x.code, x);
    if rest != [] {
      assert rest[0] in rest;
      OutsideMember(b, {i}, rest[0]);
    }
    forall k | k in b && k.owner != i
      ensures rest != []
    {
      OutsideMember(b, {i}, k);
    }
  }

  /** Combo `i` withholds `x`, and no other combo withholds that very event. */
  ghost predicate LastOwner(w: Registry, x: Event, i: nat)
  {
    WithheldKey(x, i) in Bucket(w, x.code) && forall k | k in Bucket(w, x.code) && k.ev == x :: k.owner == i
  }

  lemma LastEntryGone(w: Registry, w': Registry, i: nat, x: Event, ev: Event)
    requires WellKeyed(w) && LastOwner(w, x, i) && x != ev
    requires forall c, k | k in Bucket(w', c) :: k in Bucket(Discard(w, {i}), c) || k.ev == ev
    ensures forall c, k | c in w' && k in w'[c] :: k.ev in AllBut(x)
  {
    forall c, k | c in w' && k in w'[c]
      ensures k.ev != x
    {
      assert k in Bucket(w', c);
      if k.ev == x {
        assert k in Bucket(Discard(w, {i}), c);
        OutsideMember(Bucket(w, c), {i}, k);
      }
    }
  }

  lemma LetGoSourced(e: Engine, i: nat, a: KeyAction, inp: Input, x: Event)
    requires WellKeyed(e.registry) && LetsGo(a, Combo(e.combos, i), inp)
    requires LastOwner(e.registry, x, i) && x != inp.ev && !Alone(e.registry, x.code, i)
    ensures Sourced(ComboStep(e, i, a, inp).registry, ComboStep(e, i, a, inp).out, |e.out|, AllBut(x))
  {
    var e' := ComboStep(e, i, a, inp);
    LetGoTurn(e, i, a, inp);
    ReplayedIffAlone(e.registry, i, x);
    LastEntryGone(e.registry, e'.registry, i, x, inp.ev);
    hide ComboStep, LetsGo, Replay, Alone, WellKeyed, LastOwner;
  }

  /** The loop over the combos when the turn of combo `i` comes. */
  ghost function AtTurn(s: Mapper, ev: Event, now: nat, i: nat): Engine
    requires s.app in s.macros && i <= |s.macros[s.app]|
  {
    ComboSteps(EngineOf(s), s.macros[s.app], i, InputOf(s, ev, now))
  }

  /** When the last combo that withholds an event lets go of it by timeout, NumLock or break, then from
      that moment on, in every continuation of the run, the event is written if no other combo
      withholds its code at that moment, and is lost if one does. */
  lemma WrittenIffAlone(s: Mapper, ev: Event, now: nat, i: nat, x: Event, later: seq<Op>)
    requires Inv(s) && s.app in s.macros && i < |s.macros[s.app]|
    requires LetsGo(s.macros[s.app][i], Combo(AtTurn(s, ev, now, i).combos, i), InputOf(s, ev, now))
    requires LastOwner(AtTurn(s, ev, now, i).registry, x, i)
    requires Admissible(Feed(s, ev, now, false), later)
    requires x != ev && NotReadAgain(later, x)
    ensures var e, s' := AtTurn(s, ev, now, i), Run(Feed(s, ev, now, false), later);
            && e.out <= s'.out
            && (x in Written(s'.out[|e.out|..]) <==> Alone(e.registry, x.code, i))
  {
    hide Feed, Run, ComboStep, LetsGo, Inv, WellKeyed, AtTurn;
    var e, s1 := AtTurn(s, ev, now, i), Feed(s, ev, now, false);
    OneTurn(s, ev, now, i);
    LoopAppends(s, ev, now, i);
    RunAppends(s1, later);
    if Alone(e.registry, x.code, i) {
      LetGoTurn(e, i, s.macros[s.app][i], InputOf(s, ev, now));
      ReplayedIffAlone(e.registry, i, x);
      WrittenStays(AtTurn(s, ev, now, i + 1).out, Run(s1, later).out, |e.out|, x);
    } else {
      TurnLoses(s, ev, now, i, x);
      NeverWrittenAgain(s1, later, |e.out|, x);
    }
  }

  lemma TurnLoses(s: Mapper, ev: Event, now: nat, i: nat, x: Event)
    requires Inv(s) && s.app in s.macros && i < |s.macros[s.app]| && x != ev
    requires LetsGo(s.macros[s.app][i], Combo(AtTurn(s, ev, now, i).combos, i), InputOf(s, ev, now))
    requires LastOwner(AtTurn(s, ev, now, i).registry, x, i) && !Alone(AtTurn(s, ev, now, i).registry, x.code, i)
    ensures var s1 := Feed(s, ev, now, false);
            Inv(s1) && Sourced(s1.registry, s1.out, |AtTurn(s, ev, now, i).out|, AllBut(x))
  {
    hide Feed, ComboStep, LetsGo, Inv, WellKeyed, AtTurn, LastOwner, Alone, Sourced;
    var e := AtTurn(s, ev, now, i);
    FeedInv(s, ev, now, false);
    OneTurn(s, ev, now, i);
    LetGoSourced(e, i, s.macros[s.app][i], InputOf(s, ev, now), x);
    RestSourced(s, ev, now, i + 1, |e.out|, x);
  }

  lemma OneTurn(s: Mapper, ev: Event, now: nat, i: nat)
    requires Inv(s) && s.app in s.macros && i < |s.macros[s.app]|
    ensures WellKeyed(AtTurn(s, ev, now, i).registry)
    ensures AtTurn(s, ev, now, i + 1) == ComboStep(AtTurn(s, ev, now, i), i, s.macros[s.app][i], InputOf(s, ev, now))
  {
    ComboStepsConsistent(EngineOf(s), s.macros[s.app], i, InputOf(s, ev, now));
    hide WellKeyed, ComboStep;
  }

  lemma LoopAppends(s: Mapper, ev: Event, now: nat, i: nat)
    requires s.app in s.macros && i < |s.macros[s.app]|
    ensures AtTurn(s, ev, now, i).out <= AtTurn(s, ev, now, i + 1).out <= Feed(s, ev, now, false).out
  {
    var e, actions, inp := EngineOf(s), s.macros[s.app], InputOf(s, ev, now);
    ComboStepsAppend(e, actions, i, i + 1, inp);
    ComboStepsAppend(e, actions, i + 1, |actions|, inp);
    hide ComboSteps;
  }

  /** The remaining turns and the final emission. */
  lemma RestSourced(s: Mapper, ev: Event, now: nat, i: nat, m: nat, x: Event)
    requires Inv(s) && s.app in s.macros && i <= |s.macros[s.app]| && x != ev
    requires Sourced(AtTurn(s, ev, now, i).registry, AtTurn(s, ev, now, i).out, m, AllBut(x))
    ensures Sourced(Feed(s, ev, now, false).registry, Feed(s, ev, now, false).out, m, AllBut(x))
  {
    var actions, inp := s.macros[s.app], InputOf(s, ev, now);
    ComboStepsSourced(EngineOf(s), actions, i, |actions|, inp, m, AllBut(x));
    var e := ComboSteps(EngineOf(s), actions, |actions|, inp);
    ForwardSourced(e.registry, e.out, ev, m, AllBut(x));
    hide ComboSteps, Sourced;
  }

  // ----- The other ways to end -----

  /** A completing turn writes no event, and adds no entry but the one at hand. */
  lemma CompletingTurn(e: Engine, i: nat, a: KeyAction, inp: Input)
    requires a.trigger.events != [] && !TimedOut(MarkOf(Combo(e.combos, i)), inp.now)
    requires OutcomeOf(a, MarkOf(Combo(e.combos, i)), inp.ev, inp.numLock) == Completed
    ensures var e' := ComboStep(e, i, a, inp);
            && e.out <= e'.out && Written(e'.out[|e.out|..]) == []
            && forall c, k | k in Bucket(e'.registry, c) :: k in Bucket(Discard(e.registry, {i}), c) || k.ev == inp.ev
  {
    var step, fired := a.trigger.events[Combo(e.combos, i).next], [Fired(a, inp.app, inp.at)];
    assert Written(fired) == [] by { assert fired[..0] == []; }
    assert (e.out + fired)[|e.out|..] == fired;
    AcceptedThenDiscarded(e, i, step, inp);
    hide Discard, OutcomeOf, TimedOut, Written;
    assert Expire(e, i, inp.now).registry == e.registry && Expire(e, i, inp.now).out == e.out;
  }

  lemma AcceptedThenDiscarded(e: Engine, i: nat, step: Step, inp: Input)
    ensures forall c, k | k in Bucket(Discard(if step.suppress then Added(e.registry, inp.ev, i) else e.registry, {i}), c) ::
              k in Bucket(Discard(e.registry, {i}), c) || k.ev == inp.ev
  {
    var w := if step.suppress then Added(e.registry, inp.ev, i) else e.registry;
    forall c, k | k in Bucket(Discard(w, {i}), c)
      ensures k in Bucket(Discard(e.registry, {i}), c) || k.ev == inp.ev
    {
      OutsideMember(Bucket(w, c), {i}, k);
      OutsideMember(Bucket(e.registry, c), {i}, k);
    }
  }

  /** When the last combo that withholds an event completes, the event is swallowed: it is never
      written, in any continuation of the run. */
  lemma SwallowedForGood(s: Mapper, ev: Event, now: nat, i: nat, x: Event, later: seq<Op>)
    requires Inv(s) && s.app in s.macros && i < |s.macros[s.app]| && s.macros[s.app][i].trigger.events != []
    requires var m := MarkOf(Combo(AtTurn(s, ev, now, i).combos, i));
             !TimedOut(m, now) && OutcomeOf(s.macros[s.app][i], m, ev, s.numLock) == Completed
    requires LastOwner(AtTurn(s, ev, now, i).registry, x, i)
    requires Admissible(Feed(s, ev, now, false), later)
    requires x != ev && NotReadAgain(later, x)
    ensures var e, s' := AtTurn(s, ev, now, i), Run(Feed(s, ev, now, false), later);
            |e.out| <= |s'.out| && x !in Written(s'.out[|e.out|..])
  {
    hide Feed, Run, ComboStep, Inv, WellKeyed, AtTurn, OutcomeOf, TimedOut, LastOwner;
    var e, e1 := AtTurn(s, ev, now, i), AtTurn(s, ev, now, i + 1);
    OneTurn(s, ev, now, i);
    CompletingTurn(e, i, s.macros[s.app][i], InputOf(s, ev, now));
    LastEntryGone(e.registry, e1.registry, i, x, ev);
    assert Sourced(e1.registry, e1.out, |e.out|, AllBut(x));
    hide Sourced;
    RestSourced(s, ev, now, i + 1, |e.out|, x);
    FeedInv(s, ev, now, false);
    NeverWrittenAgain(Feed(s, ev, now, false), later, |e.out|, x);
  }

  /** A context change drops all that is withheld: none of it is ever written. */
  lemma DroppedOnContextChange(s: Mapper, app: AppType, url: string, title: string, x: Event, later: seq<Op>)
    requires Inv(s) && SetContext(s, app, url, title) != s
    requires Admissible(SetContext(s, app, url, title), later) && NotReadAgain(later, x)
    ensures var s' := Run(SetContext(s, app, url, title), later);
            |s.out| <= |s'.out| && x !in Written(s'.out[|s.out|..])
  {
    var s1 := SetContext(s, app, url, title);
    var releases := Releases(Ascending(s.pressed));
    SetContextInv(s, app, url, title);
    ReleaseAllRests(s);
    WrittenReleases(Ascending(s.pressed));
    assert (s.out + releases)[|s.out|..] == releases;
    assert s1.registry == map[] && s1.out == s.out + releases;
    hide SetContext, Run, Inv, Admissible, ReleaseAll;
    NeverWrittenAgain(s1, later, |s.out|, x);
  }

  // ----- A press that is lost -----

  const C: nat := 30
  const D: nat := 32
  const X: nat := 45
  const Y: nat := 21

  /** C then D, both withheld. */
  const First: KeyAction :=
    KeyAction(KeyTrigger([Step(EV_KEY, C, 1, true, false), Step(EV_KEY, D, 1, true, false)], true, false), [])

  /** X, then C and Y, these two withheld. */
  const Second: KeyAction :=
    KeyAction(KeyTrigger([Step(EV_KEY, X, 1, false, false), Step(EV_KEY, C, 1, true, false), Step(EV_KEY, Y, 1, true, false)], true, false), [])

  /** Progress of the two combos, registry and output. */
  ghost predicate Stands(e: Engine, c0: ComboState, c1: ComboState, w: Registry, out: seq<Output>)
  {
    Combo(e.combos, 0) == c0 && Combo(e.combos, 1) == c1 && e.registry == w && e.out == out
  }

  lemma TurnIdles(e: Engine, i: nat, a: KeyAction, inp: Input, c0: ComboState, c1: ComboState, w: Registry, out: seq<Output>)
    requires Stands(e, c0, c1, w, out) && a.trigger.events != []
    requires !TimedOut(MarkOf(Combo(e.combos, i)), inp.now)
    requires OutcomeOf(a, MarkOf(Combo(e.combos, i)), inp.ev, inp.numLock) == Idle
    ensures Stands(ComboStep(e, i, a, inp), c0, c1, w, out) && ComboStep(e, i, a, inp).caught == e.caught
  {
  }

  lemma TurnMatches(e: Engine, i: nat, a: KeyAction, inp: Input)
    requires a.trigger.events != [] && !TimedOut(MarkOf(Combo(e.combos, i)), inp.now)
    requires OutcomeOf(a, MarkOf(Combo(e.combos, i)), inp.ev, inp.numLock) == Matched
    ensures var e', c := ComboStep(e, i, a, inp), Combo(e.combos, i);
            && c.next < |a.trigger.events|
            && var held := a.trigger.events[c.next].suppress;
               && e'.registry == (if held then Added(e.registry, inp.ev, i) else e.registry) && e'.out == e.out && e'.caught == (e.caught || held)
               && Combo(e'.combos, i) == ComboState(c.next + 1, if held then c.suppressed + [inp.ev] else c.suppressed, inp.now)
               && forall j: nat | j != i :: Combo(e'.combos, j) == Combo(e.combos, j)
  {
  }

  lemma TwoTurns(s: Mapper, ev: Event, now: nat)
    requires s.app in s.macros && s.macros[s.app] == [First, Second]
    ensures var inp := InputOf(s, ev, now);
            var e := ComboStep(ComboStep(EngineOf(s), 0, First, inp), 1, Second, inp);
            Feed(s, ev, now, false) == s.(
              registry := e.registry, progress := s.progress[s.app := e.combos], history := s.history + [Given(s.app, ev, now, s.numLock)],
              out := if e.caught || (ev.IsKey() && ev.code in e.registry) then e.out else e.out + [Forwarded(ev)])
  {
    var e0, inp := EngineOf(s), InputOf(s, ev, now);
    hide ComboStep;
    assert ComboSteps(e0, [First, Second], 0, inp) == e0;
    assert ComboSteps(e0, [First, Second], 1, inp) == ComboStep(e0, 0, First, inp);
    assert ComboSteps(e0, [First, Second], 2, inp) == ComboStep(ComboStep(e0, 0, First, inp), 1, Second, inp);
  }

  ghost predicate Ready(s: Mapper)
  {
    !s.numLock && s.app in s.macros && s.macros[s.app] == [First, Second]
  }

  lemma PressC(s: Mapper, press: Event)
    requires Ready(s) && Stands(EngineOf(s), Untouched, Untouched, map[], []) && press == Event(EV_KEY, C, 1, 0)
    ensures var s1 := Feed(s, press, 0, false);
            Ready(s1) && Stands(EngineOf(s1), ComboState(1, [press], 0), Untouched, map[C := [WithheldKey(press, 0)]], [])
  {
    var e0, inp := EngineOf(s), InputOf(s, press, 0);
    TwoTurns(s, press, 0);
    TurnMatches(e0, 0, First, inp);
    var w := map[C := [WithheldKey(press, 0)]];
    assert [] + [press] == [press] && [] + [WithheldKey(press, 0)] == [WithheldKey(press, 0)];
    assert Added(map[], press, 0) == w;
    hide ComboStep;
    TurnIdles(ComboStep(e0, 0, First, inp), 1, Second, inp, ComboState(1, [press], 0), Untouched, w, []);
  }

  lemma PressX(s: Mapper, press: Event, x: Event)
    requires Ready(s) && press == Event(EV_KEY, C, 1, 0) && x == Event(EV_KEY, X, 1, 1)
    requires Stands(EngineOf(s), ComboState(1, [press], 0), Untouched, map[C := [WithheldKey(press, 0)]], [])
    ensures var s1 := Feed(s, x, 1, false);
            Ready(s1) && Stands(EngineOf(s1), ComboState(1, [press], 0), ComboState(1, [], 1), map[C := [WithheldKey(press, 0)]], [Forwarded(x)])
  {
    var e0, inp := EngineOf(s), InputOf(s, x, 1);
    TwoTurns(s, x, 1);
    TurnIdles(e0, 0, First, inp, ComboState(1, [press], 0), Untouched, map[C := [WithheldKey(press, 0)]], []);
    TurnMatches(ComboStep(e0, 0, First, inp), 1, Second, inp);
    hide ComboStep;
  }

  lemma RepeatC(s: Mapper, press: Event, repeat: Event, out: seq<Output>)
    requires Ready(s) && press == Event(EV_KEY, C, 1, 0) && repeat == Event(EV_KEY, C, 2, 2)
    requires Stands(EngineOf(s), ComboState(1, [press], 0), ComboState(1, [], 1), map[C := [WithheldKey(press, 0)]], out)
    ensures var s1 := Feed(s, repeat, 2, false);
            Ready(s1) && Stands(EngineOf(s1), ComboState(1, [press], 0), ComboState(2, [repeat], 2),
                                map[C := [WithheldKey(press, 0), WithheldKey(repeat, 1)]], out)
  {
    var e0, inp := EngineOf(s), InputOf(s, repeat, 2);
    var w := map[C := [WithheldKey(press, 0)]];
    TwoTurns(s, repeat, 2);
    assert First.trigger.events[0].code == C;
    TurnIdles(e0, 0, First, inp, ComboState(1, [press], 0), ComboState(1, [], 1), w, out);
    TurnMatches(ComboStep(e0, 0, First, inp), 1, Second, inp);
    hide ComboStep;
    assert [WithheldKey(press, 0)] + [WithheldKey(repeat, 1)] == [WithheldKey(press, 0), WithheldKey(repeat, 1)];
    assert Added(w, repeat, 1) == map[C := [WithheldKey(press, 0), WithheldKey(repeat, 1)]];
  }

  /** Combo 0 lets go while combo 1 still withholds the same code: nothing is written. */
  lemma BlockedReplay(press: Event, repeat: Event)
    requires press.code == repeat.code == C
    ensures var w := map[C := [WithheldKey(press, 0), WithheldKey(repeat, 1)]];
            Discard(w, {0}) == map[C := [WithheldKey(repeat, 1)]] && Replay(w, 0) == []
  {
    var p, r := WithheldKey(press, 0), WithheldKey(repeat, 1);
    var w, left := map[C := [p, r]], map[C := [r]];
    OutsideAppend([], p, {0});
    OutsideAppend([p], r, {0});
    assert [] + [p] == [p] && [p] + [r] == [p, r] && Outside([p, r], {0}) == [r];
    assert Discard(w, {0}) == left;
    OutsideBound([p, r], {0});
    assert Tail([p, r], 0) == [r];
    assert w.Keys == {C} && w.Keys - {C} == {};
    assert Claimed(w, 0, w.Keys) == [] + [r];
    UnblockedUniform([r], left, C);
  }

  lemma FirstBreaks(e: Engine, inp: Input)
    requires Combo(e.combos, 0).next == 1 && inp.now - Combo(e.combos, 0).lastMatch <= COMBO_TIMEOUT
    requires !inp.numLock && inp.ev.IsKey() && inp.ev.code == C && inp.ev.value == 0
    ensures !TimedOut(MarkOf(Combo(e.combos, 0)), inp.now)
    ensures OutcomeOf(First, MarkOf(Combo(e.combos, 0)), inp.ev, inp.numLock) == Broken
  {
    assert First.trigger.events[0].code == C;
  }

  lemma SecondBreaks(e: Engine, inp: Input)
    requires Combo(e.combos, 1).next == 2 && inp.now - Combo(e.combos, 1).lastMatch <= COMBO_TIMEOUT
    requires !inp.numLock && inp.ev.IsKey() && inp.ev.code == C && inp.ev.value == 0
    ensures !TimedOut(MarkOf(Combo(e.combos, 1)), inp.now)
    ensures OutcomeOf(Second, MarkOf(Combo(e.combos, 1)), inp.ev, inp.numLock) == Broken
  {
    assert Second.trigger.events[1].code == C;
  }

  lemma FirstTurnOfRelease(e: Engine, inp: Input, press: Event, repeat: Event, out: seq<Output>)
    requires Stands(e, ComboState(1, [press], 0), ComboState(2, [repeat], 2), map[C := [WithheldKey(press, 0), WithheldKey(repeat, 1)]], out)
    requires press.code == repeat.code == C && !inp.numLock && inp.ev == Event(EV_KEY, C, 0, 3) && inp.now == 3
    ensures var e1 := ComboStep(e, 0, First, inp);
            e1.registry == map[C := [WithheldKey(repeat, 1)]] && e1.out == out && e1.caught == e.caught
            && Combo(e1.combos, 1) == ComboState(2, [repeat], 2)
  {
    FirstBreaks(e, inp);
    TurnBreaks(e, 0, First, inp);
    BlockedReplay(press, repeat);
    hide ComboStep, Replay, Discard, OutcomeOf, TimedOut;
    assert Replays([]) == [] && out + [] == out;
  }

  lemma SecondTurnOfRelease(e: Engine, inp: Input, repeat: Event, out: seq<Output>)
    requires e.registry == map[C := [WithheldKey(repeat, 1)]] && e.out == out && Combo(e.combos, 1) == ComboState(2, [repeat], 2)
    requires repeat.code == C && !inp.numLock && inp.ev == Event(EV_KEY, C, 0, 3) && inp.now == 3
    ensures var e2 := ComboStep(e, 1, Second, inp);
            e2.registry == map[] && e2.out == out + [Replayed(repeat)] && e2.caught == e.caught
  {
    SecondBreaks(e, inp);
    TurnBreaks(e, 1, Second, inp);
    ReplayOfOne(e.registry, repeat, 1);
    hide ComboStep, Replay, Discard, OutcomeOf, TimedOut;
    assert Replays([repeat]) == [Replayed(repeat)];
  }

  lemma ReleaseC(s: Mapper, press: Event, repeat: Event, release: Event, out: seq<Output>)
    requires Ready(s) && press == Event(EV_KEY, C, 1, 0) && repeat == Event(EV_KEY, C, 2, 2) && release == Event(EV_KEY, C, 0, 3)
    requires Stands(EngineOf(s), ComboState(1, [press], 0), ComboState(2, [repeat], 2),
                    map[C := [WithheldKey(press, 0), WithheldKey(repeat, 1)]], out)
    ensures var s1 := Feed(s, release, 3, false);
            s1.registry == map[] && s1.out == out + [Replayed(repeat), Forwarded(release)]
  {
    hide ComboStep, Feed, Stands;
    var inp := InputOf(s, release, 3);
    TwoTurns(s, release, 3);
    FirstTurnOfRelease(EngineOf(s), inp, press, repeat, out);
    SecondTurnOfRelease(ComboStep(EngineOf(s), 0, First, inp), inp, repeat, out);
    assert (out + [Replayed(repeat)]) + [Forwarded(release)] == out + [Replayed(repeat), Forwarded(release)];
  }

  const PRESS_C := Event(EV_KEY, C, 1, 0)
  const PRESS_X := Event(EV_KEY, X, 1, 1)
  const REPEAT_C := Event(EV_KEY, C, 2, 2)
  const RELEASE_C := Event(EV_KEY, C, 0, 3)

  /** The state after these four events. */
  ghost function AfterFour(s: Mapper): Mapper
  {
    Feed(Feed(Feed(Feed(s, PRESS_C, 0, false), PRESS_X, 1, false), REPEAT_C, 2, false), RELEASE_C, 3, false)
  }

  lemma FourEvents(s: Mapper)
    requires Initial(s) && Ready(s)
    ensures AfterFour(s).registry == map[] && AfterFour(s).out == [Forwarded(PRESS_X), Replayed(REPEAT_C), Forwarded(RELEASE_C)]
  {
    var s1 := Feed(s, PRESS_C, 0, false);
    var s2 := Feed(s1, PRESS_X, 1, false);
    var s3 := Feed(s2, REPEAT_C, 2, false);
    StartStands(s);
    hide Feed, Stands, Inv, Initial, Ready;
    PressC(s, PRESS_C);
    PressX(s1, PRESS_C, PRESS_X);
    RepeatC(s2, PRESS_C, REPEAT_C, [Forwarded(PRESS_X)]);
    ReleaseC(s3, PRESS_C, REPEAT_C, RELEASE_C, [Forwarded(PRESS_X)]);
  }

  lemma FourInv(s: Mapper)
    requires Inv(s)
    ensures Inv(AfterFour(s))
  {
    var s1 := Feed(s, PRESS_C, 0, false);
    var s2 := Feed(s1, PRESS_X, 1, false);
    var s3 := Feed(s2, REPEAT_C, 2, false);
    hide Feed, Inv;
    FeedInv(s, PRESS_C, 0, false);
    FeedInv(s1, PRESS_X, 1, false);
    FeedInv(s2, REPEAT_C, 2, false);
    FeedInv(s3, RELEASE_C, 3, false);
  }

  /** Press C, press X, repeat C, release C: the first combo breaks while the second still withholds
      the repeat. The repeat and the release are written, and the press never is, however the run
      goes on. */
  lemma PressIsLost(s: Mapper, later: seq<Op>)
    requires Initial(s) && Ready(s)
    requires Admissible(AfterFour(s), later) && NotReadAgain(later, PRESS_C)
    ensures Written(AfterFour(s).out) == [PRESS_X, REPEAT_C, RELEASE_C]
    ensures PRESS_C !in Written(Run(AfterFour(s), later).out)
  {
    hide AfterFour, Stands, Inv, Run, Admissible, Initial, Ready, NotReadAgain;
    FourEvents(s);
    StartStands(s);
    FourInv(s);
    ThreeWritten(PRESS_X, REPEAT_C, RELEASE_C);
    hide Written;
    StaysLost(AfterFour(s), later, PRESS_C);
  }

  lemma StartStands(s: Mapper)
    requires Initial(s) && Ready(s)
    ensures Inv(s) && Stands(EngineOf(s), Untouched, Untouched, map[], [])
  {
    AtRestInv(s);
  }

  lemma StaysLost(s: Mapper, later: seq<Op>, x: Event)
    requires Inv(s) && s.registry == map[] && x !in Written(s.out)
    requires Admissible(s, later) && NotReadAgain(later, x)
    ensures x !in Written(Run(s, later).out)
  {
    assert s.out[0..] == s.out && Sourced(s.registry, s.out, 0, AllBut(x));
    hide Sourced;
    NeverWrittenAgain(s, later, 0, x);
    assert Run(s, later).out[0..] == Run(s, later).out;
  }

  lemma ThreeWritten(x: Event, y: Event, z: Event)
    ensures Written([Forwarded(x), Replayed(y), Forwarded(z)]) == [x, y, z]
  {
    var all := [Forwarded(x), Replayed(y), Forwarded(z)];
    assert all[..2] == [Forwarded(x), Replayed(y)] && all[..2][..1] == [Forwarded(x)] && [Forwarded(x)][..0] == [];
    assert Written([Forwarded(x)]) == [] + [x] && Written(all[..2]) == [x] + [y];
  }
}
