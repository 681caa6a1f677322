/** The registry and the per-combo progress agree, whatever event arrives. */
module EngineInvariant {
  import opened InputEvents
  import opened Suppression
  import opened MacroEngine

  /** `sup` holds exactly one matching event per suppressing step among the first `n`, in step order. */
  ghost predicate Covers(events: seq<Step>, n: nat, sup: seq<Event>)
    requires n <= |events|
  {
    if n == 0 then sup == []
    else if events[n - 1].suppress then
      sup != [] && Matches(events[n - 1], sup[|sup| - 1]) && Covers(events, n - 1, sup[..|sup| - 1])
    else Covers(events, n - 1, sup)
  }

  ghost predicate ComboFits(actions: seq<KeyAction>, i: nat, c: ComboState)
  {
    if c.next == 0 then c.suppressed == []
    else i < |actions| && c.next < |actions[i].trigger.events|
         && Covers(actions[i].trigger.events, c.next, c.suppressed)
  }

  /** What the registry says combo `i` withholds is what the combo itself remembers. */
  ghost predicate Shared(w: Registry, combos: Combos)
  {
    forall c: nat, i: nat :: Own(Bucket(w, c), i) == OnCode(Combo(combos, i).suppressed, c)
  }

  ghost predicate Consistent(e: Engine, actions: seq<KeyAction>)
  {
    && WellKeyed(e.registry)
    && (forall i | i in e.combos :: ComboFits(actions, i, e.combos[i]))
    && Shared(e.registry, e.combos)
  }

  lemma AbandonConsistent(e: Engine, actions: seq<KeyAction>, i: nat)
    requires Consistent(e, actions)
    ensures Consistent(Abandon(e, i), actions)
  {
    var e' := Abandon(e, i);
    DiscardWellKeyed(e.registry, {i});
    forall c: nat, j: nat
      ensures Own(Bucket(e'.registry, c), j) == OnCode(Combo(e'.combos, j).suppressed, c)
    {
      DiscardBucket(e.registry, {i}, c);
      OwnOutside(Bucket(e.registry, c), {i}, j);
      assert Own(Bucket(e.registry, c), j) == OnCode(Combo(e.combos, j).suppressed, c);
    }
  }

  lemma AcceptShared(e: Engine, i: nat, step: Step, inp: Input)
    requires WellKeyed(e.registry) && Shared(e.registry, e.combos)
    ensures WellKeyed(Accept(e, i, step, inp).registry)
    ensures Shared(Accept(e, i, step, inp).registry, Accept(e, i, step, inp).combos)
  {
    var e' := Accept(e, i, step, inp);
    assert WellKeyed(e'.registry);
    hide Accept, WellKeyed;
    forall c: nat, j: nat
      ensures Own(Bucket(e'.registry, c), j) == OnCode(Combo(e'.combos, j).suppressed, c)
    {
      assert Own(Bucket(e.registry, c), j) == OnCode(Combo(e.combos, j).suppressed, c);
      AcceptSharedAt(e, i, step, inp, c, j);
    }
  }

  lemma AcceptSharedAt(e: Engine, i: nat, step: Step, inp: Input, c: nat, j: nat)
    requires Own(Bucket(e.registry, c), j) == OnCode(Combo(e.combos, j).suppressed, c)
    ensures var e' := Accept(e, i, step, inp);
            Own(Bucket(e'.registry, c), j) == OnCode(Combo(e'.combos, j).suppressed, c)
  {
    OwnAppend(Bucket(e.registry, c), WithheldKey(inp.ev, i), j);
    OnCodeAppend(Combo(e.combos, i).suppressed, [inp.ev], c);
    assert OnCode([inp.ev], c) == if inp.ev.code == c then [inp.ev] else [] by { assert [inp.ev][..0] == []; }
    hide Own, OnCode;
  }

  lemma CompleteConsistent(e: Engine, actions: seq<KeyAction>, i: nat, a: KeyAction, inp: Input)
    requires WellKeyed(e.registry) && Shared(e.registry, e.combos)
    requires forall j | j in e.combos && j != i :: ComboFits(actions, j, e.combos[j])
    ensures Consistent(Complete(e, i, a, inp), actions)
  {
    var e' := Complete(e, i, a, inp);
    DiscardWellKeyed(e.registry, {i});
    forall c: nat, j: nat
      ensures Own(Bucket(e'.registry, c), j) == OnCode(Combo(e'.combos, j).suppressed, c)
    {
      DiscardBucket(e.registry, {i}, c);
      OwnOutside(Bucket(e.registry, c), {i}, j);
      assert Own(Bucket(e.registry, c), j) == OnCode(Combo(e.combos, j).suppressed, c);
    }
  }

  lemma TouchConsistent(e: Engine, actions: seq<KeyAction>, i: nat)
    requires Consistent(e, actions)
    ensures Consistent(e.(combos := e.combos[i := Combo(e.combos, i)]), actions)
  {
    var e' := e.(combos := e.combos[i := Combo(e.combos, i)]);
    assert forall j: nat :: Combo(e'.combos, j) == Combo(e.combos, j);
  }

  lemma AcceptConsistent(e: Engine, actions: seq<KeyAction>, i: nat, inp: Input)
    requires Consistent(e, actions) && i < |actions|
    requires Combo(e.combos, i).next + 1 < |actions[i].trigger.events|
    requires Matches(actions[i].trigger.events[Combo(e.combos, i).next], inp.ev)
    ensures Consistent(Accept(e, i, actions[i].trigger.events[Combo(e.combos, i).next], inp), actions)
  {
    var a, c := actions[i], Combo(e.combos, i);
    AcceptShared(e, i, a.trigger.events[c.next], inp);
    CoversNext(a.trigger.events, c.next, c.suppressed, inp.ev);
    hide Shared, WellKeyed, Covers, Matches;
    assert ComboFits(actions, i, c);
  }

  lemma AcceptCompleteConsistent(e: Engine, actions: seq<KeyAction>, i: nat, step: Step, inp: Input)
    requires Consistent(e, actions) && i < |actions|
    ensures Consistent(Complete(Accept(e, i, step, inp), i, actions[i], inp), actions)
  {
    AcceptShared(e, i, step, inp);
    hide Shared, WellKeyed, Covers, Complete;
    CompleteConsistent(Accept(e, i, step, inp), actions, i, actions[i], inp);
  }

  lemma ReactConsistent(e: Engine, actions: seq<KeyAction>, i: nat, inp: Input)
    requires Consistent(e, actions) && i < |actions|
    ensures Consistent(React(e, i, actions[i], inp), actions)
  {
    hide Consistent, Abandon, Accept, Complete, Matches, Breaks, KeyboardOnly;
    var a, c := actions[i], Combo(e.combos, i);
    match OutcomeOf(a, MarkOf(c), inp.ev, inp.numLock)
    case Idle =>
    case Broken => AbandonConsistent(e, actions, i);
    case Matched => AcceptConsistent(e, actions, i, inp);
    case Completed => AcceptCompleteConsistent(e, actions, i, a.trigger.events[c.next], inp);
  }

  lemma ComboStepConsistent(e: Engine, actions: seq<KeyAction>, i: nat, inp: Input)
    requires Consistent(e, actions) && i < |actions|
    ensures Consistent(ComboStep(e, i, actions[i], inp), actions)
  {
    hide Consistent, React, Abandon;
    if actions[i].trigger.events != [] {
      TouchConsistent(e, actions, i);
      AbandonConsistent(e, actions, i);
      ReactConsistent(Expire(e, i, inp.now), actions, i, inp);
    }
  }

  lemma CoversNext(events: seq<Step>, n: nat, sup: seq<Event>, ev: Event)
    requires n < |events| && Covers(events, n, sup) && Matches(events[n], ev)
    ensures Covers(events, n + 1, if events[n].suppress then sup + [ev] else sup)
  {
    assert (sup + [ev])[..|sup|] == sup;
  }

  /** Any number of turns keeps the agreement. */
  lemma {:induction false} ComboStepsConsistent(e: Engine, actions: seq<KeyAction>, n: nat, inp: Input)
    requires Consistent(e, actions) && n <= |actions|
    ensures Consistent(ComboSteps(e, actions, n, inp), actions)
  {
    hide ComboStep, Consistent;
    if n > 0 {
      ComboStepsConsistent(e, actions, n - 1, inp);
      ComboStepConsistent(ComboSteps(e, actions, n - 1, inp), actions, n - 1, inp);
    }
  }

  lemma {:induction false} CoversMember(events: seq<Step>, n: nat, sup: seq<Event>, ev: Event)
    requires n <= |events| && Covers(events, n, sup) && ev in sup
    ensures exists j :: 0 <= j < n && events[j].suppress && Matches(events[j], ev)
  {
    if n > 0 {
      if events[n - 1].suppress {
        assert sup == sup[..|sup| - 1] + [sup[|sup| - 1]];
        if ev in sup[..|sup| - 1] {
          CoversMember(events, n - 1, sup[..|sup| - 1], ev);
        }
      } else {
        CoversMember(events, n - 1, sup, ev);
      }
    }
  }
}
