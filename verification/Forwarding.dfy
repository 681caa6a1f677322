/** Which events pass the macro stage as they are, and what changing NumLock does. */
module Forwarding {
  import opened InputEvents
  import opened Suppression
  import opened MacroEngine
  import opened Pipeline
  import opened StateInvariant
  import opened EventOrder
  import opened StuckKeys
  import opened ComboHistory

  /** The step a combo waits for when an event arrives: after two seconds it waits for the first again. */
  function Awaited(c: ComboState, now: nat): nat
  {
    if c.next > 0 && now > c.lastMatch + 2_000_000_000 then 0 else c.next
  }

  /** The event is what the combo waits for, and the step withholds it. */
  ghost predicate Takes(a: KeyAction, c: ComboState, inp: Input)
  {
    var n := Awaited(c, inp.now);
    n < |a.trigger.events| && !SetAside(a, inp.numLock) && Fits(a.trigger.events[n], inp.ev) && a.trigger.events[n].suppress
  }

  /** After the event, the combo withholds an event of its code. */
  ghost predicate Remembers(s: Mapper, i: nat, code: nat)
  {
    OnCode(Combo(CombosOf(s.progress, s.app), i).suppressed, code) != []
  }

  lemma TurnCatches(e: Engine, i: nat, a: KeyAction, inp: Input)
    ensures ComboStep(e, i, a, inp).caught <==> e.caught || Takes(a, Combo(e.combos, i), inp)
  {
    SetAsideIff(a, inp.numLock);
    if Awaited(Combo(e.combos, i), inp.now) < |a.trigger.events| {
      FitsIff(a.trigger.events[Awaited(Combo(e.combos, i), inp.now)], inp.ev);
    }
    hide Replay, SetAside, KeyboardOnly, Matches, Fits;
  }

  lemma {:induction false} TurnsCatch(e: Engine, actions: seq<KeyAction>, n: nat, inp: Input)
    requires n <= |actions|
    ensures ComboSteps(e, actions, n, inp).caught
       <==> e.caught || exists i: nat :: i < n && Takes(actions[i], Combo(e.combos, i), inp)
  {
    hide ComboStep, Takes;
    if n > 0 {
      var before := ComboSteps(e, actions, n - 1, inp);
      TurnsCatch(e, actions, n - 1, inp);
      CombosAreIndependent(e, actions, n - 1, inp, n - 1);
      TurnCatches(before, n - 1, actions[n - 1], inp);
    }
  }

  lemma StageIs(s: Mapper, ev: Event, now: nat)
    requires s.app in s.macros
    ensures var e := ComboSteps(EngineOf(s), s.macros[s.app], |s.macros[s.app]|, InputOf(s, ev, now));
            var (s1, r) := MacroStage(s, ev, now, false);
            && s1.registry == e.registry && s1.app == s.app && CombosOf(s1.progress, s1.app) == e.combos
            && (r == DROP <==> e.caught || (ev.typ == 1 && ev.code in s1.registry))
  {
    hide ComboSteps;
  }

  /** Some combo of the active app takes the event to withhold it, or it is a key event and some combo
      withholds an event of its code when all have seen it. */
  ghost predicate HeldBack(s: Mapper, ev: Event, now: nat)
  {
    var actions, s1 := ActionsOf(s.macros, s.app), MacroStage(s, ev, now, false).0;
    || (exists i: nat :: i < |actions| && Takes(actions[i], Combo(CombosOf(s.progress, s.app), i), InputOf(s, ev, now)))
    || (ev.typ == 1 && exists i: nat :: Remembers(s1, i, ev.code))
  }

  lemma RegistryRemembers(s: Mapper, code: nat)
    requires Inv(s)
    ensures code in s.registry <==> exists i: nat :: Remembers(s, i, code)
  {
    BlockedIff(s.registry, CombosOf(s.progress, s.app), code);
    if code in s.registry {
      var i: nat :| OnCode(Combo(CombosOf(s.progress, s.app), i).suppressed, code) != [];
      assert Remembers(s, i, code);
    }
  }

  /** An event is forwarded, after all that its arrival makes the combos write, exactly if it is not held
      back. Otherwise nothing more is written. */
  lemma ForwardedIff(s: Mapper, ev: Event, now: nat)
    requires Inv(s)
    ensures Feed(s, ev, now, false).out
         == MacroStage(s, ev, now, false).0.out + if HeldBack(s, ev, now) then [] else [Forwarded(ev)]
  {
    MacroStageInv(s, ev, now, false);
    RegistryRemembers(MacroStage(s, ev, now, false).0, ev.code);
    if s.app in s.macros {
      StageIs(s, ev, now);
      TurnsCatch(EngineOf(s), s.macros[s.app], |s.macros[s.app]|, InputOf(s, ev, now));
      hide MacroStage;
    } else {
      EmptyWithoutMacros(s);
    }
    hide ComboSteps, Takes, Inv, Remembers;
  }

  /** A request to grab ends monitoring exactly if the keyboard falls idle and no key counts as pressed,
      and changes nothing else. */
  lemma GrabIs(s: Mapper, idle: bool)
    ensures Grab(s, idle) == s.(monitoring := s.monitoring && !(idle && forall c: nat :: c !in s.pressed))
  {
    assert (forall c: nat :: c !in s.pressed) ==> s.pressed == {};
  }

  /** Turning NumLock on gives the devices back; turning it off takes them if the keyboard falls idle and
      no key counts as pressed. Either way everything is let go of. Without a change nothing happens. */
  lemma NumLockIs(s: Mapper, active: bool, idle: bool)
    requires Inv(s)
    ensures var s' := SetNumLock(s, active, idle);
            && s'.numLock == active
            && if s.numLock == active then s' == s
               else AtRest(s') && s'.pressed == {}
                    && (s'.monitoring <==> active || (s.monitoring && !(idle && s.pressed == {})))
                    && s'.out == s.out + Releases(Ascending(s.pressed)) && s'.history == s.history + [Cleared]
                    && s' == s.(numLock := active, monitoring := s'.monitoring, registry := s'.registry, progress := s'.progress,
                                pressed := s'.pressed, out := s'.out, history := s'.history)
  {
    NothingLeft(s);
    hide Ascending, VisitOrder, Inv;
  }
}
