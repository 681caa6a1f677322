/** What fires, how often and in which order. */
module ComboFirings {
  import opened Collections
  import opened InputEvents
  import opened Suppression
  import opened MacroEngine
  import opened Pipeline
  import opened ComboHistory

  /** The fired actions of an output, in order. */
  function FiredIn(out: seq<Output>): seq<Output>
  {
    if out == [] then [] else
    var rest, last := FiredIn(out[..|out| - 1]), out[|out| - 1];
    if last.Fired? then rest + [last] else rest
  }

  lemma FiredSnoc(out: seq<Output>, o: Output)
    ensures FiredIn(out + [o]) == FiredIn(out) + if o.Fired? then [o] else []
  {
    assert (out + [o])[..|out|] == out;
  }

  lemma {:induction false} FiredReplays(out: seq<Output>, es: seq<Event>)
    ensures FiredIn(out + Replays(es)) == FiredIn(out)
  {
    if es == [] {
      assert out + Replays(es) == out;
    } else {
      var before := es[..|es| - 1];
      FiredReplays(out, before);
      FiredSnoc(out + Replays(before), Replayed(es[|es| - 1]));
      assert out + Replays(es) == (out + Replays(before)) + [Replayed(es[|es| - 1])];
    }
  }

  lemma ReactFires(e: Engine, i: nat, a: KeyAction, inp: Input)
    ensures FiredIn(React(e, i, a, inp).out)
         == FiredIn(e.out) + if OutcomeOf(a, MarkOf(Combo(e.combos, i)), inp.ev, inp.numLock) == Completed
                             then [Fired(a, inp.app, inp.at)] else []
  {
    FiredReplays(e.out, Replay(e.registry, i));
    FiredSnoc(e.out, Fired(a, inp.app, inp.at));
    hide Replay, Discard, Replays, FiredIn, Matches, Breaks, KeyboardOnly;
  }

  lemma TurnFires(e: Engine, i: nat, a: KeyAction, inp: Input)
    ensures FiredIn(ComboStep(e, i, a, inp).out)
         == FiredIn(e.out) + if CompletesTurn(a, Combo(e.combos, i), inp) then [Fired(a, inp.app, inp.at)] else []
  {
    FiredReplays(e.out, Replay(e.registry, i));
    ReactFires(Expire(e, i, inp.now), i, a, inp);
    hide Replay, Discard, Replays, FiredIn, React, OutcomeOf;
  }

  /** The actions among the first `n` that have a full trail, one firing each, in their order. */
  ghost function Firings(actions: seq<KeyAction>, n: nat, app: AppType, h: seq<Item>): seq<Output>
    requires n <= |actions| && h != []
  {
    if n == 0 then [] else
    Firings(actions, n - 1, app, h) +
    if HasFullTrail(actions[n - 1], app, h) then [Fired(actions[n - 1], app, |h| - 1)] else []
  }

  lemma {:induction false} TurnsFire(s: Mapper, ev: Event, now: nat, n: nat)
    requires Tracked(s) && s.app in s.macros && n <= |s.macros[s.app]|
    ensures var h := s.history + [Given(s.app, ev, now, s.numLock)];
            FiredIn(ComboSteps(EngineOf(s), s.macros[s.app], n, InputOf(s, ev, now)).out)
              == FiredIn(s.out) + Firings(s.macros[s.app], n, s.app, h)
  {
    hide ComboStep, HasFullTrail, FiredIn, Tracked, CompletesTurn, Completes;
    if n > 0 {
      var actions, e, inp, item := s.macros[s.app], EngineOf(s), InputOf(s, ev, now), Given(s.app, ev, now, s.numLock);
      var before := ComboSteps(e, actions, n - 1, inp);
      TurnsFire(s, ev, now, n - 1);
      CombosAreIndependent(e, actions, n - 1, inp, n - 1);
      TurnFires(before, n - 1, actions[n - 1], inp);
      TurnCompletesIff(s, ev, now, n - 1);
      CompletesIffTrail(actions[n - 1], s.app, s.history, item);
      var h := s.history + [item];
      Associative(FiredIn(s.out), Firings(actions, n - 1, s.app, h),
                  if HasFullTrail(actions[n - 1], s.app, h) then [Fired(actions[n - 1], s.app, |h| - 1)] else []);
    } else {
      assert FiredIn(s.out) + [] == FiredIn(s.out);
    }
  }

  lemma TurnCompletesIff(s: Mapper, ev: Event, now: nat, i: nat)
    requires Tracked(s) && s.app in s.macros && i < |s.macros[s.app]|
    ensures CompletesTurn(s.macros[s.app][i], Combo(EngineOf(s).combos, i), InputOf(s, ev, now))
       <==> Completes(s.macros[s.app][i], s.app, s.history, Given(s.app, ev, now, s.numLock))
  {
    var a, m := s.macros[s.app][i], MarkOf(Combo(EngineOf(s).combos, i));
    assert SameMark(m, Isolated(a, s.app, s.history));
    SameOutcome(a, m, Isolated(a, s.app, s.history), ev, now, s.numLock);
    hide OutcomeOf, Isolated, Tracked;
  }

  /** Over every run, the event handed to the macros next fires each action of the active app once that
      has a full trail ending with it, in the order in which the actions are listed, and nothing else. */
  lemma FiresOncePerTrail(s: Mapper, ops: seq<Op>, ev: Event, now: nat)
    requires Initial(s)
    ensures var before := Run(s, ops);
            var actions := ActionsOf(before.macros, before.app);
            var h := before.history + [Given(before.app, ev, now, before.numLock)];
            FiredIn(Feed(before, ev, now, false).out) == FiredIn(before.out) + Firings(actions, |actions|, before.app, h)
  {
    hide Run, Firings, Tracked;
    var before := Run(s, ops);
    ReachableExplained(s, ops);
    if before.app in before.macros {
      TurnsFire(before, ev, now, |before.macros[before.app]|);
    } else {
      NoFirings(before.app, before.history + [Given(before.app, ev, now, before.numLock)]);
      assert FiredIn(before.out) + [] == FiredIn(before.out);
    }
    FiredSnoc(MacroStage(before, ev, now, false).0.out, Forwarded(ev));
    assert FiredIn(MacroStage(before, ev, now, false).0.out) + [] == FiredIn(MacroStage(before, ev, now, false).0.out);
    hide ComboSteps, FiredIn;
  }

  lemma NoFirings(app: AppType, h: seq<Item>)
    requires h != []
    ensures Firings([], 0, app, h) == []
  {
  }
}
