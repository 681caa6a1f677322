/** Releases get through, and no key stays down on the virtual device that is up on the input of the
    macro stage. */
module StuckKeys {
  import opened InputEvents
  import opened Suppression
  import opened MacroEngine
  import opened ShippedMacros
  import opened EngineInvariant
  import opened Pipeline
  import opened StateInvariant
  import opened EventOrder
  import opened RunOrder

  // ----- Releases -----

  predicate IsRelease(ev: Event)
  {
    ev.IsKey() && ev.value == 0
  }

  function Expired(c: ComboState, now: nat): ComboState
  {
    if TimedOut(MarkOf(c), now) then c.(next := 0, suppressed := []) else c
  }

  /** Does a combo in state `c` keep the event from being forwarded: by withholding it, or by
      matching it while it still withholds an event of the same code? */
  ghost predicate Retains(a: KeyAction, c: ComboState, inp: Input)
  {
    && a.trigger.events != []
    && var c1 := Expired(c, inp.now);
       var o := OutcomeOf(a, MarkOf(c1), inp.ev, inp.numLock);
       && (o == Matched || o == Completed)
       && (a.trigger.events[c1.next].suppress || (o == Matched && OnCode(c1.suppressed, inp.ev.code) != []))
  }

  ghost predicate Withholds(a: KeyAction, c: ComboState, inp: Input)
  {
    && Retains(a, c, inp) && a.trigger.events[Expired(c, inp.now).next].suppress
  }

  lemma CaughtStep(e: Engine, i: nat, a: KeyAction, inp: Input)
    ensures ComboStep(e, i, a, inp).caught <==> e.caught || Withholds(a, Combo(e.combos, i), inp)
  {
  }

  lemma {:induction false} CaughtIff(e: Engine, actions: seq<KeyAction>, n: nat, inp: Input)
    requires n <= |actions|
    ensures ComboSteps(e, actions, n, inp).caught
       <==> e.caught || exists i: nat :: i < n && Withholds(actions[i], Combo(e.combos, i), inp)
  {
    hide ComboStep, Withholds;
    if n > 0 {
      var before := ComboSteps(e, actions, n - 1, inp);
      CaughtIff(e, actions, n - 1, inp);
      assert Combo(before.combos, n - 1) == Combo(e.combos, n - 1) by {
        CombosAreIndependent(e, actions, n - 1, inp, n - 1);
      }
      assert ComboSteps(e, actions, n, inp).caught <==> before.caught || Withholds(actions[n - 1], Combo(e.combos, n - 1), inp) by {
        CaughtStep(before, n - 1, actions[n - 1], inp);
      }
    }
  }

  /** What a combo still withholds on the code of a release after its turn. */
  lemma AfterRelease(actions: seq<KeyAction>, i: nat, c: ComboState, inp: Input)
    requires i < |actions| && ComboFits(actions, i, c) && IsRelease(inp.ev)
    ensures OnCode(NextCombo(c, actions[i], inp).suppressed, inp.ev.code) != [] ==> Retains(actions[i], c, inp)
    ensures Retains(actions[i], c, inp) && !Withholds(actions[i], c, inp) ==>
              OnCode(NextCombo(c, actions[i], inp).suppressed, inp.ev.code) != []
  {
    var a, c1, code := actions[i], Expired(c, inp.now), inp.ev.code;
    if a.trigger.events != [] && OutcomeOf(a, MarkOf(c1), inp.ev, inp.numLock) == Idle && OnCode(c1.suppressed, code) != [] {
      var x := OnCode(c1.suppressed, code)[0];
      OnCodeMember(c1.suppressed, code, x);
      CoversMember(a.trigger.events, c1.next, c1.suppressed, x);
      assert CodeMatchedBefore(a.trigger.events, c1.next, code);
      assert false;
    }
  }

  lemma BlockedIff(w: Registry, combos: Combos, code: nat)
    requires WellKeyed(w) && Shared(w, combos)
    ensures code in w <==> exists i: nat :: OnCode(Combo(combos, i).suppressed, code) != []
  {
    if code in w {
      var k := w[code][0];
      OwnMember(Bucket(w, code), k.owner, k.ev);
      assert Own(Bucket(w, code), k.owner) == OnCode(Combo(combos, k.owner).suppressed, code);
    }
    forall i: nat | OnCode(Combo(combos, i).suppressed, code) != []
      ensures code in w
    {
      assert Own(Bucket(w, code), i) == OnCode(Combo(combos, i).suppressed, code);
    }
  }

  /** A release is forwarded exactly when no combo of the active app retains it. */
  lemma ReleaseForwardedIff(s: Mapper, ev: Event, now: nat)
    requires Inv(s) && IsRelease(ev)
    ensures MacroStage(s, ev, now, false).1 == CONTINUE
       <==> !exists i: nat :: i < |ActionsOf(s.macros, s.app)| &&
              Retains(ActionsOf(s.macros, s.app)[i], Combo(CombosOf(s.progress, s.app), i), InputOf(s, ev, now))
    ensures MacroStage(s, ev, now, false).1 == CONTINUE ==> ev.code !in MacroStage(s, ev, now, false).0.registry
  {
    if s.app in s.macros {
      var actions, inp, e := s.macros[s.app], InputOf(s, ev, now), EngineOf(s);
      var e' := ComboSteps(e, actions, |actions|, inp);
      ComboStepsConsistent(e, actions, |actions|, inp);
      CaughtIff(e, actions, |actions|, inp);
      BlockedIff(e'.registry, e'.combos, ev.code);
      forall i: nat
        ensures OnCode(Combo(e'.combos, i).suppressed, ev.code) != [] ==>
                  i < |actions| && Retains(actions[i], Combo(e.combos, i), inp)
        ensures i < |actions| && Retains(actions[i], Combo(e.combos, i), inp) && !Withholds(actions[i], Combo(e.combos, i), inp) ==>
                  OnCode(Combo(e'.combos, i).suppressed, ev.code) != []
      {
        CombosAreIndependent(e, actions, |actions|, inp, i);
        if i < |actions| {
          AfterRelease(actions, i, Combo(e.combos, i), inp);
        }
      }
    } else {
      EmptyWithoutMacros(s);
    }
  }

  /** Is the combo waiting for this very event? */
  predicate Awaits(a: KeyAction, c: ComboState, ev: Event, now: nat)
  {
    var n := Expired(c, now).next;
    n < |a.trigger.events| && Matches(a.trigger.events[n], ev)
  }

  /** A release that no combo of the active app waits for is always forwarded: after whatever is
      replayed, as the last thing written, with nothing left withheld on its code. */
  lemma UnawaitedReleasePasses(s: Mapper, ev: Event, now: nat)
    requires Inv(s) && IsRelease(ev)
    requires forall i: nat | i < |ActionsOf(s.macros, s.app)| ::
               !Awaits(ActionsOf(s.macros, s.app)[i], Combo(CombosOf(s.progress, s.app), i), ev, now)
    ensures var s' := Feed(s, ev, now, false);
            s'.out != [] && s'.out[|s'.out| - 1] == Forwarded(ev) && ev.code !in s'.registry
  {
    var actions, inp := ActionsOf(s.macros, s.app), InputOf(s, ev, now);
    forall i: nat | i < |actions|
      ensures !Retains(actions[i], Combo(CombosOf(s.progress, s.app), i), inp)
    {
      assert !Awaits(actions[i], Combo(CombosOf(s.progress, s.app), i), ev, now);
    }
    ReleaseForwardedIff(s, ev, now);
  }

  // ----- Keys held down -----

  /** The kernel's key state: a press sets it, a release clears it, a repeat leaves it. */
  predicate KeyEffect(was: bool, ev: Event, c: nat)
  {
    if ev.IsKey() && ev.code == c && ev.value == 1 then true
    else if ev.IsKey() && ev.code == c && ev.value == 0 then false
    else was
  }

  predicate OutputEffect(was: bool, o: Output, c: nat)
  {
    match o
    case Forwarded(ev) => KeyEffect(was, ev, c)
    case Replayed(ev) => KeyEffect(was, ev, c)
    case Released(code) => was && code != c
    case Fired(_, _, _) => was
  }

  predicate ItemEffect(was: bool, item: Item, c: nat)
  {
    match item
    case Given(_, ev, _, _) => KeyEffect(was, ev, c)
    case Bypassed(ev) => KeyEffect(was, ev, c)
    case Cleared => was
  }

  /** Is key `c` down on the virtual device after `out`? Fired actions are left out of account. */
  predicate DownOutside(out: seq<Output>, c: nat)
  {
    out != [] && OutputEffect(DownOutside(out[..|out| - 1], c), out[|out| - 1], c)
  }

  /** Is key `c` down on the input of the macro stage after `history`? */
  predicate DownInside(history: seq<Item>, c: nat)
  {
    history != [] && ItemEffect(DownInside(history[..|history| - 1], c), history[|history| - 1], c)
  }

  predicate Presses(ev: Event, c: nat)
  {
    ev.IsKey() && ev.code == c && ev.value == 1
  }

  /** Key `c` may be down outside, or be withheld as pressed, only if `down` allows it. */
  ghost predicate Backed(w: Registry, out: seq<Output>, c: nat, down: bool)
  {
    && (DownOutside(out, c) ==> down)
    && forall k | k in Bucket(w, c) :: Presses(k.ev, c) ==> down
  }

  lemma {:induction false} ReplaysDown(out: seq<Output>, es: seq<Event>, c: nat)
    requires DownOutside(out + Replays(es), c)
    ensures DownOutside(out, c) || exists e :: e in es && Presses(e, c)
  {
    if es == [] {
      assert out + Replays(es) == out;
    } else {
      var before := es[..|es| - 1];
      var all := out + Replays(es);
      assert all[..|all| - 1] == out + Replays(before) && all[|all| - 1] == Replayed(es[|es| - 1]);
      if DownOutside(out + Replays(before), c) {
        ReplaysDown(out, before, c);
        if !DownOutside(out, c) {
          var e :| e in before && Presses(e, c);
          assert e in es;
        }
      } else {
        assert Presses(es[|es| - 1], c);
      }
    }
  }

  lemma {:induction false} ReleasesDown(out: seq<Output>, codes: seq<nat>, c: nat)
    ensures DownOutside(out + Releases(codes), c) <==> DownOutside(out, c) && c !in codes
  {
    if codes == [] {
      assert out + Releases(codes) == out;
    } else {
      var before := codes[..|codes| - 1];
      ReleasesDown(out, before, c);
      assert (out + Releases(codes))[..|out + Releases(codes)| - 1] == out + Releases(before);
      assert codes == before + [codes[|codes| - 1]];
    }
  }

  lemma DiscardBacked(w: Registry, out: seq<Output>, owners: set<nat>, c: nat, down: bool)
    requires Backed(w, out, c, down)
    ensures Backed(Discard(w, owners), out, c, down)
  {
    forall k | k in Bucket(Discard(w, owners), c)
      ensures k in Bucket(w, c)
    {
      OutsideMember(Bucket(w, c), owners, k);
    }
  }

  lemma AbandonBacked(e: Engine, i: nat, c: nat, down: bool)
    requires WellKeyed(e.registry) && Backed(e.registry, e.out, c, down)
    ensures Backed(Abandon(e, i).registry, Abandon(e, i).out, c, down)
  {
    var es := Replay(e.registry, i);
    DiscardBacked(e.registry, e.out, {i}, c, down);
    if DownOutside(e.out + Replays(es), c) {
      ReplaysDown(e.out, es, c);
      if !DownOutside(e.out, c) {
        var x :| x in es && Presses(x, c);
        ReplayMember(e.registry, i, x);
      }
    }
  }

  lemma ComboStepBacked(e: Engine, i: nat, a: KeyAction, inp: Input, c: nat, down: bool)
    requires WellKeyed(e.registry) && Backed(e.registry, e.out, c, down)
    requires Presses(inp.ev, c) ==> down
    ensures Backed(ComboStep(e, i, a, inp).registry, ComboStep(e, i, a, inp).out, c, down)
  {
    if a.trigger.events != [] {
      var e1 := Expire(e, i, inp.now);
      AbandonBacked(e, i, c, down);
      DiscardWellKeyed(e.registry, {i});
      ReactBacked(e1, i, a, inp, c, down);
    }
  }

  lemma ReactBacked(e: Engine, i: nat, a: KeyAction, inp: Input, c: nat, down: bool)
    requires WellKeyed(e.registry) && Backed(e.registry, e.out, c, down)
    requires Presses(inp.ev, c) ==> down
    ensures Backed(React(e, i, a, inp).registry, React(e, i, a, inp).out, c, down)
  {
    var m := MarkOf(Combo(e.combos, i));
    match OutcomeOf(a, m, inp.ev, inp.numLock)
    case Idle =>
    case Broken => AbandonBacked(e, i, c, down);
    case Matched =>
      AddedBacked(e.registry, e.out, inp.ev, i, c, down);
    case Completed =>
      var e2 := Accept(e, i, a.trigger.events[m.next], inp);
      AddedBacked(e.registry, e.out, inp.ev, i, c, down);
      assert (e2.out + [Fired(a, inp.app, inp.at)])[..|e2.out|] == e2.out;
      DiscardBacked(e2.registry, e2.out + [Fired(a, inp.app, inp.at)], {i}, c, down);
  }

  lemma AddedBacked(w: Registry, out: seq<Output>, ev: Event, i: nat, c: nat, down: bool)
    requires Backed(w, out, c, down) && (Presses(ev, c) ==> down)
    ensures Backed(Added(w, ev, i), out, c, down)
  {
  }

  lemma {:induction false} ComboStepsBacked(e: Engine, actions: seq<KeyAction>, n: nat, inp: Input, c: nat, down: bool)
    requires Consistent(e, actions) && n <= |actions|
    requires Backed(e.registry, e.out, c, down) && (Presses(inp.ev, c) ==> down)
    ensures Backed(ComboSteps(e, actions, n, inp).registry, ComboSteps(e, actions, n, inp).out, c, down)
  {
    hide ComboStep, Backed;
    if n > 0 {
      var before := ComboSteps(e, actions, n - 1, inp);
      ComboStepsBacked(e, actions, n - 1, inp, c, down);
      assert WellKeyed(before.registry) by { ComboStepsConsistent(e, actions, n - 1, inp); }
      ComboStepBacked(before, n - 1, actions[n - 1], inp, c, down);
    }
  }

  // ----- Whole events -----

  predicate IsReleaseStep(step: Step)
  {
    step.typ == EV_KEY && step.value == 0
  }

  /** No step that expects a key release withholds it, and none follows a step that withholds an
      event of the same code. */
  ghost predicate SafeTrigger(events: seq<Step>)
  {
    forall j | 0 <= j < |events| && IsReleaseStep(events[j]) ::
      !events[j].suppress && forall h | 0 <= h < j :: !(events[h].suppress && events[h].code == events[j].code)
  }

  ghost predicate SafeMacros(macros: Macros)
  {
    forall a, i | a in macros && 0 <= i < |macros[a]| :: SafeTrigger(macros[a][i].trigger.events)
  }

  lemma PressesAreSafe(actions: seq<KeyAction>)
    requires PressesOnly(actions)
    ensures forall i | 0 <= i < |actions| :: SafeTrigger(actions[i].trigger.events)
  {
    forall i | 0 <= i < |actions|
      ensures SafeTrigger(actions[i].trigger.events)
    {
      assert actions[i] in actions;
    }
  }

  lemma ShippedMacrosAreSafe()
    ensures SafeMacros(Shipped)
  {
    ShippedExpectPresses();
    forall a | a in Shipped
      ensures forall i | 0 <= i < |Shipped[a]| :: SafeTrigger(Shipped[a][i].trigger.events)
    {
      PressesAreSafe(Shipped[a]);
    }
    hide SafeTrigger, PressesOnly;
  }

  ghost predicate KeysBacked(s: Mapper)
  {
    forall c: nat :: Backed(s.registry, s.out, c, DownInside(s.history, c))
  }

  lemma ForwardedDown(out: seq<Output>, ev: Event, c: nat)
    ensures DownOutside(out + [Forwarded(ev)], c) == KeyEffect(DownOutside(out, c), ev, c)
  {
    assert (out + [Forwarded(ev)])[..|out|] == out;
  }

  lemma ItemDown(history: seq<Item>, item: Item, c: nat)
    ensures DownInside(history + [item], c)
         == ItemEffect(DownInside(history, c), item, c)
  {
    assert (history + [item])[..|history|] == history;
  }

  lemma ReleaseGetsThrough(s: Mapper, ev: Event, now: nat)
    requires Inv(s) && SafeMacros(s.macros) && IsRelease(ev)
    ensures MacroStage(s, ev, now, false).1 == CONTINUE
    ensures ev.code !in MacroStage(s, ev, now, false).0.registry
  {
    var actions, combos := ActionsOf(s.macros, s.app), CombosOf(s.progress, s.app);
    forall i: nat | i < |actions|
      ensures !Retains(actions[i], Combo(combos, i), InputOf(s, ev, now))
    {
      SafeTriggerLetsGo(actions, i, Combo(combos, i), InputOf(s, ev, now));
    }
    ReleaseForwardedIff(s, ev, now);
  }

  lemma SafeTriggerLetsGo(actions: seq<KeyAction>, i: nat, c: ComboState, inp: Input)
    requires i < |actions| && SafeTrigger(actions[i].trigger.events)
    requires ComboFits(actions, i, c) && IsRelease(inp.ev)
    ensures !Retains(actions[i], c, inp)
  {
    var events, c1 := actions[i].trigger.events, Expired(c, inp.now);
    if Retains(actions[i], c, inp) {
      assert IsReleaseStep(events[c1.next]);
      var held := OnCode(c1.suppressed, inp.ev.code);
      assert held[0] in held;
      OnCodeMember(c1.suppressed, inp.ev.code, held[0]);
      CoversMember(events, c1.next, c1.suppressed, held[0]);
    }
  }

  /** What backs a key before an event backs it afterwards, with the event's own effect. */
  lemma FeedBackedOn(s: Mapper, ev: Event, now: nat, c: nat, was: bool)
    requires Inv(s) && SafeMacros(s.macros) && Backed(s.registry, s.out, c, was)
    ensures var s' := Feed(s, ev, now, false);
            Backed(s'.registry, s'.out, c, KeyEffect(was, ev, c))
  {
    hide ComboSteps, DownOutside;
    var s1 := MacroStage(s, ev, now, false).0;
    var down := KeyEffect(was, ev, c);
    ForwardedDown(s1.out, ev, c);
    if IsRelease(ev) && ev.code == c {
      ReleaseGetsThrough(s, ev, now);
    } else if s.app in s.macros {
      ComboStepsBacked(EngineOf(s), s.macros[s.app], |s.macros[s.app]|, InputOf(s, ev, now), c, down);
    }
  }

  lemma FeedBacked(s: Mapper, ev: Event, now: nat, skip: bool)
    requires Inv(s) && SafeMacros(s.macros) && KeysBacked(s)
    requires skip ==> s.registry == map[]
    ensures KeysBacked(Feed(s, ev, now, skip))
  {
    var s' := Feed(s, ev, now, skip);
    var item := if skip then Bypassed(ev) else Given(s.app, ev, now, s.numLock);
    assert s'.history == s.history + [item];
    forall c: nat
      ensures Backed(s'.registry, s'.out, c, DownInside(s'.history, c))
    {
      assert Backed(s.registry, s.out, c, DownInside(s.history, c));
      ItemDown(s.history, item, c);
      if skip {
        ForwardedDown(s.out, ev, c);
      } else {
        FeedBackedOn(s, ev, now, c, DownInside(s.history, c));
      }
    }
  }

  lemma ClearedBacked(s: Mapper, s': Mapper)
    requires KeysBacked(s) && s'.registry == map[]
    requires s'.history == s.history + [Cleared]
    requires forall c: nat :: DownOutside(s'.out, c) ==> DownInside(s.history, c)
    ensures KeysBacked(s')
  {
    forall c: nat
      ensures Backed(s'.registry, s'.out, c, DownInside(s'.history, c))
    {
      ItemDown(s.history, Cleared, c);
    }
  }

  lemma ReleaseAllBacked(s: Mapper)
    requires KeysBacked(s) && ReleaseAll(s).registry == map[]
    ensures KeysBacked(ReleaseAll(s))
  {
    var s' := ReleaseAll(s);
    forall c: nat
      ensures DownOutside(s'.out, c) ==> DownInside(s.history, c)
    {
      assert Backed(s.registry, s.out, c, DownInside(s.history, c));
      ReleasesDown(s.out, Ascending(s.pressed), c);
    }
    ClearedBacked(s, s');
  }

  lemma FlushBacked(s: Mapper)
    requires Inv(s) && KeysBacked(s)
    ensures KeysBacked(Flush(s))
  {
    FlushRests(s);
    forall c: nat
      ensures DownOutside(Flush(s).out, c) ==> DownInside(s.history, c)
    {
      assert Backed(s.registry, s.out, c, DownInside(s.history, c));
      FlushBackedOn(s, c, DownInside(s.history, c));
    }
    ClearedBacked(s, Flush(s));
  }

  lemma FlushBackedOn(s: Mapper, c: nat, down: bool)
    requires Inv(s) && Backed(s.registry, s.out, c, down)
    ensures Backed(Flush(s).registry, Flush(s).out, c, down)
  {
    var es := FlushClaims(s.registry, VisitOrder(s.progress, AppOrder));
    FlushRests(s);
    hide FlushClaims;
    if DownOutside(Flush(s).out, c) {
      ReplaysDown(s.out, es, c);
      if !DownOutside(s.out, c) {
        var x :| x in es && Presses(x, c);
        OnCodeMember(es, c, x);
        FlushWithheld(s, c);
        var k :| k in Bucket(s.registry, c) && k.ev == x;
      }
    }
  }

  /** A context change lets go of everything and releases the keys that count as pressed. */
  lemma ReleaseAllBackedOn(s: Mapper, c: nat, down: bool)
    requires Inv(s) && Backed(s.registry, s.out, c, down)
    ensures Backed(ReleaseAll(s).registry, ReleaseAll(s).out, c, down && c !in s.pressed)
  {
    ReleaseAllRests(s);
    ReleasesDown(s.out, Ascending(s.pressed), c);
    AscendingElements(s.pressed, c);
    hide DownOutside;
  }

  lemma BackedFrame(s: Mapper, s': Mapper)
    requires KeysBacked(s) && s'.registry == s.registry && s'.out == s.out && s'.history == s.history
    ensures KeysBacked(s')
  {
    forall c: nat
      ensures Backed(s'.registry, s'.out, c, DownInside(s'.history, c))
    {
      assert Backed(s.registry, s.out, c, DownInside(s.history, c));
    }
  }

  lemma SetNumLockBacked(s: Mapper, active: bool, idle: bool)
    requires Inv(s) && KeysBacked(s)
    ensures KeysBacked(SetNumLock(s, active, idle))
  {
    if s.numLock != active {
      var s1 := s.(numLock := active);
      var s2 := if active then s1.(monitoring := true) else Grab(s1, idle);
      InvFrame(s, s2);
      BackedFrame(s, s2);
      ReleaseAllRests(s2);
      ReleaseAllBacked(s2);
    }
  }

  lemma ContextStageBacked(s: Mapper, ev: Event, now: nat, idle: bool)
    requires Inv(s) && KeysBacked(s)
    ensures KeysBacked(ContextStage(s, ev, now, idle)) && ContextStage(s, ev, now, idle).macros == s.macros
  {
    var s1 := Track(Emergency(s, ev, now), ev);
    TrackFrame(s, ev, now);
    InvFrame(s, s1);
    BackedFrame(s, s1);
    SetNumLockBacked(s1, !s1.numLock, idle);
  }

  lemma {:induction false} ProcessBacked(s: Mapper, ev: Event, skip: bool, now: nat, idle: bool)
    requires Inv(s) && SafeMacros(s.macros) && KeysBacked(s)
    requires skip ==> s.registry == map[]
    ensures KeysBacked(Process(s, ev, skip, now, idle)) && Process(s, ev, skip, now, idle).macros == s.macros
    decreases if KEY_1 <= ev.code <= KEY_6 then 1 else 0
  {
    var s1 := ContextStage(s, ev, now, idle);
    ContextStageInv(s, ev, now, idle);
    ContextStageBacked(s, ev, now, idle);
    if skip {
      ContextStageRests(s, ev, now, idle);
    }
    if s1.monitoring {
    } else if skip {
      FeedBacked(s1, ev, now, skip);
    } else {
      var (g, k) := DetectG(s1.gToggle, ev);
      var s2 := s1.(gToggle := g);
      InvFrame(s1, s2);
      BackedFrame(s1, s2);
      if k > 0 {
        ProcessBacked(s2, Virtual(ev, k), false, now, idle);
      } else {
        FeedBacked(s2, ev, now, skip);
      }
    }
  }

  lemma {:induction false} SyncedBacked(s: Mapper, rs: seq<Reading>)
    requires Inv(s) && SafeMacros(s.macros) && KeysBacked(s) && s.registry == map[]
    ensures Inv(Synced(s, rs)) && Synced(s, rs).registry == map[]
    ensures KeysBacked(Synced(s, rs)) && Synced(s, rs).macros == s.macros
  {
    if rs != [] {
      var r, s1 := rs[|rs| - 1], Synced(s, rs[..|rs| - 1]);
      SyncedBacked(s, rs[..|rs| - 1]);
      ProcessInv(s1, r.ev, true, r.now, r.idle);
      ProcessBacked(s1, r.ev, true, r.now, r.idle);
      SkippedKeepsRegistry(s1, r.ev, r.now, r.idle);
    }
  }

  lemma PerformBacked(s: Mapper, op: Op)
    requires Inv(s) && SafeMacros(s.macros) && KeysBacked(s)
    requires op.LoadMacros? ==> s.registry == map[] && SafeMacros(op.overlay)
    ensures KeysBacked(Perform(s, op)) && SafeMacros(Perform(s, op).macros)
  {
    hide KeysBacked, SafeMacros, Inv;
    match op
    case Read(r) => ProcessBacked(s, r.ev, false, r.now, r.idle);
    case Resync(rs) =>
      FlushRests(s);
      AtRestInv(Flush(s));
      FlushBacked(s);
      SyncedBacked(Flush(s), rs);
    case Focus(app, url, title) =>
      if SetContext(s, app, url, title) != s {
        var s1 := s.(app := app, url := url, title := title);
        BackedFrame(s, s1);
        ReleaseAllRests(s);
        ReleaseAllBacked(s1);
      }
    case Regrab(idle) => BackedFrame(s, Grab(s, idle));
    case LoadMacros(overlay) =>
      ReloadBacked(s, overlay);
  }

  lemma ReloadBacked(s: Mapper, overlay: Macros)
    requires SafeMacros(s.macros) && SafeMacros(overlay) && KeysBacked(s) && s.registry == map[]
    ensures KeysBacked(Reload(s, overlay)) && SafeMacros(Reload(s, overlay).macros)
  {
    ShippedMacrosAreSafe();
    assert SafeMacros(Reload(s, overlay).macros) by { hide SafeTrigger; }
    hide SafeMacros;
    forall c: nat
      ensures DownOutside(s.out, c) ==> DownInside(s.history, c)
    {
      assert Backed(s.registry, s.out, c, DownInside(s.history, c));
    }
    ClearedBacked(s, Reload(s, overlay));
  }

  /** If every trigger is safe, then after every operation of every run each key that forwarded and
      replayed events leave down is down on the input of the macro stage: the macros make no key stick. */
  lemma {:induction false} NoKeySticks(s: Mapper, ops: seq<Op>)
    requires Initial(s) && Admissible(s, ops) && SafeMacros(s.macros)
    requires forall k | 0 <= k < |ops| && ops[k].LoadMacros? :: SafeMacros(ops[k].overlay)
    ensures forall c: nat :: DownOutside(Run(s, ops).out, c) ==> DownInside(Run(s, ops).history, c)
    ensures KeysBacked(Run(s, ops)) && SafeMacros(Run(s, ops).macros)
  {
    var s' := Run(s, ops);
    if ops == [] {
      assert forall c: nat :: !DownOutside(s.out, c);
    } else {
      NoKeySticks(s, ops[..|ops| - 1]);
      ReachableInv(s, ops[..|ops| - 1]);
      PerformBacked(Run(s, ops[..|ops| - 1]), ops[|ops| - 1]);
    }
    forall c: nat
      ensures DownOutside(s'.out, c) ==> DownInside(s'.history, c)
    {
      assert Backed(s'.registry, s'.out, c, DownInside(s'.history, c));
    }
  }

  lemma OneCombo(s: Mapper, ev: Event, now: nat, a: KeyAction)
    requires s.app in s.macros && s.macros[s.app] == [a]
    ensures var e := ComboStep(EngineOf(s), 0, a, InputOf(s, ev, now));
            Feed(s, ev, now, false) == s.(
              registry := e.registry, progress := s.progress[s.app := e.combos], history := s.history + [Given(s.app, ev, now, s.numLock)],
              out := if e.caught || (ev.IsKey() && ev.code in e.registry) then e.out else e.out + [Forwarded(ev)])
  {
    var e0, inp := EngineOf(s), InputOf(s, ev, now);
    assert ComboSteps(e0, [a], 0, inp) == e0;
    assert ComboSteps(e0, [a], 1, inp) == ComboStep(e0, 0, a, inp);
  }

  /** What the only combo of the active app has done so far: its progress and the registry, the output
      and the history. */
  ghost predicate Lone(s: Mapper, app: AppType, a: KeyAction, c: ComboState, w: Registry, out: seq<Output>, history: seq<Item>)
  {
    && s.app == app && app in s.macros && s.macros[app] == [a]
    && !s.numLock && s.registry == w && s.out == out && s.history == history
    && Combo(CombosOf(s.progress, app), 0) == c
  }

  lemma LoneStart(s: Mapper, a: KeyAction)
    requires Initial(s) && !s.numLock && s.app in s.macros && s.macros[s.app] == [a]
    ensures Lone(s, s.app, a, Untouched, map[], [], [])
  {
  }

  function SwallowsRelease(c: nat): KeyAction
  {
    KeyAction(KeyTrigger([Step(EV_KEY, c, 1, false, false), Step(EV_KEY, c, 0, true, false)], true, true), [])
  }

  lemma PressPasses(s: Mapper, c: nat, down: Event)
    requires Presses(down, c)
    requires Lone(s, s.app, SwallowsRelease(c), Untouched, map[], [], [])
    ensures Lone(Feed(s, down, 0, false), s.app, SwallowsRelease(c), ComboState(1, [], 0), map[], [Forwarded(down)], [Given(s.app, down, 0, false)])
  {
    OneCombo(s, down, 0, SwallowsRelease(c));
  }

  lemma ReleaseIsSwallowed(s: Mapper, app: AppType, c: nat, down: Event, up: Event, h: seq<Item>)
    requires IsRelease(up) && up.code == c
    requires Lone(s, app, SwallowsRelease(c), ComboState(1, [], 0), map[], [Forwarded(down)], h)
    ensures var s' := Feed(s, up, 1, false);
            s'.out == [Forwarded(down), Fired(SwallowsRelease(c), app, |h|)] && s'.history == h + [Given(app, up, 1, false)]
  {
    OneCombo(s, up, 1, SwallowsRelease(c));
  }

  /** Both halves of safety are needed. A trigger whose second step swallows the release of a key that the
      first one let pass leaves that key down outside although it is up inside. */
  lemma ReleaseStepSticks(s: Mapper, c: nat)
    requires Initial(s) && !s.numLock && s.app in s.macros && s.macros[s.app] == [SwallowsRelease(c)]
    ensures var s1 := Feed(s, Event(EV_KEY, c, 1, 0), 0, false);
            var s2 := Feed(s1, Event(EV_KEY, c, 0, 1), 1, false);
            DownOutside(s2.out, c) && !DownInside(s2.history, c)
  {
    hide Feed, Initial, Lone, DownInside, SwallowsRelease;
    var down, up := Event(EV_KEY, c, 1, 0), Event(EV_KEY, c, 0, 1);
    var h, fired := [Given(s.app, down, 0, false)], Fired(SwallowsRelease(c), s.app, 1);
    LoneStart(s, SwallowsRelease(c));
    PressPasses(s, c, down);
    ReleaseIsSwallowed(Feed(s, down, 0, false), s.app, c, down, up, h);
    DownAndUp([], s.app, c, down, up);
    assert [] + h == h;
    ForwardedDown([], down, c);
    assert [Forwarded(down), fired][..1] == [] + [Forwarded(down)];
  }

  function TakesRelease(c: nat): KeyAction
  {
    KeyAction(KeyTrigger([Step(EV_KEY, c, 1, true, false), Step(EV_KEY, c, 0, false, false),
                          Step(EV_KEY, c, 1, false, false)], true, true), [])
  }

  lemma PressIsWithheld(s: Mapper, c: nat, down: Event)
    requires Presses(down, c)
    requires Lone(s, s.app, TakesRelease(c), Untouched, map[], [], [])
    ensures Lone(Feed(s, down, 0, false), s.app, TakesRelease(c), ComboState(1, [down], 0), map[c := [WithheldKey(down, 0)]], [],
                 [Given(s.app, down, 0, false)])
  {
    OneCombo(s, down, 0, TakesRelease(c));
    assert [] + [down] == [down] && [] + [WithheldKey(down, 0)] == [WithheldKey(down, 0)];
    assert Added(map[], down, 0) == map[c := [WithheldKey(down, 0)]];
  }

  lemma ReleaseIsDropped(s: Mapper, app: AppType, c: nat, down: Event, up: Event, h: seq<Item>)
    requires IsRelease(up) && up.code == c
    requires Lone(s, app, TakesRelease(c), ComboState(1, [down], 0), map[c := [WithheldKey(down, 0)]], [], h)
    ensures Lone(Feed(s, up, 1, false), app, TakesRelease(c), ComboState(2, [down], 1), map[c := [WithheldKey(down, 0)]], [],
                 h + [Given(app, up, 1, false)])
  {
    OneCombo(s, up, 1, TakesRelease(c));
  }

  lemma NoiseReplays(s: Mapper, app: AppType, c: nat, down: Event, noise: Event, h: seq<Item>)
    requires Presses(down, c)
    requires noise.IsKey() && noise.value == 1 && noise.code != c
    requires Lone(s, app, TakesRelease(c), ComboState(2, [down], 1), map[c := [WithheldKey(down, 0)]], [], h)
    ensures var s' := Feed(s, noise, 2, false);
            s'.out == [Replayed(down), Forwarded(noise)] && s'.history == h + [Given(app, noise, 2, false)]
  {
    hide Replay, Discard;
    OneCombo(s, noise, 2, TakesRelease(c));
    ReplayOfOne(s.registry, down, 0);
    assert Replays([down]) == [Replayed(down)];
  }

  /** The other half: a trigger that withholds a press and then takes its release. The release
      is dropped, noise breaks the combo, and the press replayed then is never followed by a release. */
  lemma TakenReleaseSticks(s: Mapper, c: nat, d: nat)
    requires Initial(s) && !s.numLock && s.app in s.macros && c != d && s.macros[s.app] == [TakesRelease(c)]
    ensures var s1 := Feed(s, Event(EV_KEY, c, 1, 0), 0, false);
            var s2 := Feed(s1, Event(EV_KEY, c, 0, 1), 1, false);
            var s3 := Feed(s2, Event(EV_KEY, d, 1, 2), 2, false);
            DownOutside(s3.out, c) && !DownInside(s3.history, c)
  {
    hide Feed, Initial, Lone, DownInside, DownOutside, TakesRelease;
    var down, up, noise := Event(EV_KEY, c, 1, 0), Event(EV_KEY, c, 0, 1), Event(EV_KEY, d, 1, 2);
    var h := [Given(s.app, down, 0, false)];
    var s1 := Feed(s, down, 0, false);
    var s2 := Feed(s1, up, 1, false);
    LoneStart(s, TakesRelease(c));
    PressIsWithheld(s, c, down);
    ReleaseIsDropped(s1, s.app, c, down, up, h);
    NoiseReplays(s2, s.app, c, down, noise, h + [Given(s.app, up, 1, false)]);
    DownAndUp([], s.app, c, down, up);
    assert [] + h == h;
    ItemDown(h + [Given(s.app, up, 1, false)], Given(s.app, noise, 2, false), c);
    ForwardedDown([Replayed(down)], noise, c);
    ReplayedDown(down, c);
    assert [Replayed(down), Forwarded(noise)] == [Replayed(down)] + [Forwarded(noise)];
  }

  lemma ReplayedDown(down: Event, c: nat)
    requires Presses(down, c)
    ensures DownOutside([Replayed(down)], c)
  {
    assert [Replayed(down)][..0] == [];
  }

  /** A press and a release inside leave the key up. */
  lemma DownAndUp(h: seq<Item>, app: AppType, c: nat, down: Event, up: Event)
    requires Presses(down, c) && IsRelease(up) && up.code == c
    ensures !DownInside(h + [Given(app, down, 0, false)] + [Given(app, up, 1, false)], c)
  {
    hide DownInside;
    ItemDown(h + [Given(app, down, 0, false)], Given(app, up, 1, false), c);
  }

  // ----- Every trigger that withholds a release -----

  predicate Matchable(step: Step)
  {
    step.typ == EV_KEY ==> step.value == 0 || step.value == 1
  }

  /** The event that a step waits for. */
  function MatchOf(step: Step): Event
  {
    Event(step.typ, step.code, step.value, 0)
  }

  /** The steps from `from` up to `to` are taken, one after the other, at time 0. */
  ghost function Play(s: Mapper, events: seq<Step>, from: nat, to: nat): Mapper
    requires to <= |events|
  {
    if from >= to then s else Feed(Play(s, events, from, to - 1), MatchOf(events[to - 1]), 0, false)
  }

  /** The only combo of the active app waits for step `n`, and key `c` is down outside. */
  ghost predicate Underway(s: Mapper, app: AppType, a: KeyAction, c: nat, n: nat)
  {
    && s.app == app && app in s.macros && s.macros[app] == [a] && !s.numLock
    && Combo(CombosOf(s.progress, app), 0).next == n && Combo(CombosOf(s.progress, app), 0).lastMatch == 0
    && DownOutside(s.out, c)
  }

  lemma FirstPress(s: Mapper, a: KeyAction, c: nat)
    requires Initial(s) && !s.numLock && s.app in s.macros && s.macros[s.app] == [a]
    requires var events := a.trigger.events;
             events != [] && (Matches(events[0], MatchOf(Step(EV_KEY, c, 1, false, false))) ==> |events| > 1 && !events[0].suppress)
    ensures var press := MatchOf(Step(EV_KEY, c, 1, false, false));
            Underway(Feed(s, press, 0, false), s.app, a, c, if Matches(a.trigger.events[0], press) then 1 else 0)
  {
    var press := MatchOf(Step(EV_KEY, c, 1, false, false));
    OneCombo(s, press, 0, a);
    ForwardedDown([], press, c);
    hide DownOutside, Feed, KeyboardOnly, Breaks;
  }

  lemma NextStep(s: Mapper, app: AppType, a: KeyAction, c: nat, n: nat)
    requires Underway(s, app, a, c, n) && n + 1 < |a.trigger.events| && Matchable(a.trigger.events[n])
    requires IsReleaseStep(a.trigger.events[n]) && a.trigger.events[n].code == c ==> a.trigger.events[n].suppress
    ensures Underway(Feed(s, MatchOf(a.trigger.events[n]), 0, false), app, a, c, n + 1)
  {
    var ev := MatchOf(a.trigger.events[n]);
    OneCombo(s, ev, 0, a);
    ForwardedDown(s.out, ev, c);
    hide DownOutside, Feed, KeyboardOnly, Breaks;
  }

  lemma ReleaseWithheld(s: Mapper, app: AppType, a: KeyAction, c: nat, n: nat)
    requires Underway(s, app, a, c, n) && n < |a.trigger.events|
    requires IsReleaseStep(a.trigger.events[n]) && a.trigger.events[n].code == c && a.trigger.events[n].suppress
    ensures var s' := Feed(s, MatchOf(a.trigger.events[n]), 0, false);
            DownOutside(s'.out, c) && !DownInside(s'.history, c)
  {
    var ev := MatchOf(a.trigger.events[n]);
    OneCombo(s, ev, 0, a);
    ItemDown(s.history, Given(app, ev, 0, false), c);
    FiredDown(s.out, Fired(a, app, |s.history|), c);
    hide DownOutside, DownInside, Feed, KeyboardOnly, Breaks;
  }

  lemma FiredDown(out: seq<Output>, o: Output, c: nat)
    requires o.Fired?
    ensures DownOutside(out + [o], c) == DownOutside(out, c)
  {
    assert (out + [o])[..|out|] == out;
  }

  lemma {:induction false} PlayGoesOn(s: Mapper, app: AppType, a: KeyAction, c: nat, from: nat, to: nat)
    requires Underway(s, app, a, c, from) && from <= to < |a.trigger.events|
    requires forall h | from <= h < to :: Matchable(a.trigger.events[h])
    requires forall h | from <= h < to :: IsReleaseStep(a.trigger.events[h]) && a.trigger.events[h].code == c ==> a.trigger.events[h].suppress
    ensures Underway(Play(s, a.trigger.events, from, to), app, a, c, to)
  {
    hide Underway, Feed;
    if from < to {
      PlayGoesOn(s, app, a, c, from, to - 1);
      NextStep(Play(s, a.trigger.events, from, to - 1), app, a, c, to - 1);
    }
  }

  /** Any trigger that withholds a release of a key leaves that key down outside although it is up
      inside, if its steps before that can be taken, none of them lets a release of the key pass, and
      the first is no withheld press of the key: press the key, take the steps, release the key. */
  lemma WithheldReleaseSticks(s: Mapper, a: KeyAction, c: nat, j: nat)
    requires Initial(s) && !s.numLock && s.app in s.macros && s.macros[s.app] == [a]
    requires var events := a.trigger.events;
             && j < |events| && IsReleaseStep(events[j]) && events[j].code == c && events[j].suppress
             && (forall h | 0 <= h < j :: Matchable(events[h]))
             && (forall h | 0 <= h < j :: IsReleaseStep(events[h]) && events[h].code == c ==> events[h].suppress)
             && !(events[0].typ == EV_KEY && events[0].code == c && events[0].value == 1 && events[0].suppress)
    ensures var press := MatchOf(Step(EV_KEY, c, 1, false, false));
            var s1 := Feed(s, press, 0, false);
            var s2 := Play(s1, a.trigger.events, if Matches(a.trigger.events[0], press) then 1 else 0, j);
            var s3 := Feed(s2, MatchOf(a.trigger.events[j]), 0, false);
            DownOutside(s3.out, c) && !DownInside(s3.history, c)
  {
    var press := MatchOf(Step(EV_KEY, c, 1, false, false));
    var first := if Matches(a.trigger.events[0], press) then 1 else 0;
    assert first <= j;
    hide Feed, Play, Initial, Underway, DownOutside, DownInside;
    FirstPress(s, a, c);
    PlayGoesOn(Feed(s, press, 0, false), s.app, a, c, first, j);
    ReleaseWithheld(Play(Feed(s, press, 0, false), a.trigger.events, first, j), s.app, a, c, j);
  }
}
