/** Why a combo fires: the history holds its steps, in order, close together and undisturbed. */
module ComboHistory {
  import opened InputEvents
  import opened MacroEngine
  import opened Pipeline
  import opened StateInvariant

  // ----- One combo on its own -----

  function NextMark(a: KeyAction, m: Mark, ev: Event, now: nat, numLock: bool): Mark
  {
    if a.trigger.events == [] then m else
    var m1 := AfterTimeout(m, now);
    match OutcomeOf(a, m1, ev, numLock)
    case Idle => m1
    case Broken => Mark(0, m1.last)
    case Matched => Mark(m1.next + 1, now)
    case Completed => Mark(0, now)
  }

  /** The progress of one combo of `app` that has the whole history to itself. */
  function Isolated(a: KeyAction, app: AppType, h: seq<Item>): Mark
  {
    if h == [] then Mark(0, 0) else ItemMark(a, app, Isolated(a, app, h[..|h| - 1]), h[|h| - 1])
  }

  function ItemMark(a: KeyAction, app: AppType, m: Mark, item: Item): Mark
  {
    match item
    case Given(app', ev, now, numLock) => if app' == app then NextMark(a, m, ev, now, numLock) else m
    case Bypassed(_) => m
    case Cleared => Mark(0, m.last)
  }

  /** Does the item complete the combo, given the history before it? */
  predicate Completes(a: KeyAction, app: AppType, h: seq<Item>, item: Item)
  {
    && item.Given? && item.app == app && a.trigger.events != []
    && OutcomeOf(a, AfterTimeout(Isolated(a, app, h), item.now), item.ev, item.numLock) == Completed
  }

  ghost predicate SameMark(m: Mark, m': Mark)
  {
    m.next == m'.next && (m.next > 0 ==> m.last == m'.last)
  }

  /** The parallel engine tracks every combo as if it were alone. */
  ghost predicate Tracked(s: Mapper)
  {
    forall app, i: nat :: app in s.macros && i < |s.macros[app]| ==>
      SameMark(MarkOf(Combo(CombosOf(s.progress, app), i)), Isolated(s.macros[app][i], app, s.history))
  }

  /** Every fired action was completed, on its own, by the item it names. */
  ghost predicate FiredRightly(s: Mapper)
  {
    forall o | o in s.out && o.Fired? ::
      o.at < |s.history| && Completes(o.action, o.app, s.history[..o.at], s.history[o.at])
  }

  lemma IsolatedSnoc(a: KeyAction, app: AppType, h: seq<Item>, item: Item)
    ensures Isolated(a, app, h + [item]) == ItemMark(a, app, Isolated(a, app, h), item)
  {
    assert (h + [item])[..|h|] == h;
  }

  lemma NextComboTracked(c: ComboState, a: KeyAction, inp: Input, m: Mark)
    requires SameMark(MarkOf(c), m)
    ensures SameMark(MarkOf(NextCombo(c, a, inp)), NextMark(a, m, inp.ev, inp.now, inp.numLock))
  {
  }

  /** In which turns an action fires. */
  ghost predicate CompletesTurn(a: KeyAction, c: ComboState, inp: Input)
  {
    a.trigger.events != [] && OutcomeOf(a, AfterTimeout(MarkOf(c), inp.now), inp.ev, inp.numLock) == Completed
  }

  lemma FiredStep(e: Engine, i: nat, a: KeyAction, inp: Input, o: Output)
    requires o.Fired?
    ensures o in ComboStep(e, i, a, inp).out
       <==> o in e.out || (CompletesTurn(a, Combo(e.combos, i), inp) && o == Fired(a, inp.app, inp.at))
  {
    if a.trigger.events != [] {
      var e1 := Expire(e, i, inp.now);
      assert MarkOf(Combo(e1.combos, i)) == AfterTimeout(MarkOf(Combo(e.combos, i)), inp.now);
      assert o in e1.out <==> o in e.out;
      FiredReact(e1, i, a, inp, o);
    }
  }

  lemma FiredReact(e: Engine, i: nat, a: KeyAction, inp: Input, o: Output)
    requires o.Fired?
    ensures o in React(e, i, a, inp).out
       <==> o in e.out || (OutcomeOf(a, MarkOf(Combo(e.combos, i)), inp.ev, inp.numLock) == Completed && o == Fired(a, inp.app, inp.at))
  {
  }

  lemma {:induction false} FiredSteps(e: Engine, actions: seq<KeyAction>, n: nat, inp: Input, o: Output)
    requires n <= |actions| && o.Fired?
    ensures o in ComboSteps(e, actions, n, inp).out
       <==> o in e.out || exists i: nat :: i < n && CompletesTurn(actions[i], Combo(e.combos, i), inp) && o == Fired(actions[i], inp.app, inp.at)
  {
    hide ComboStep, CompletesTurn;
    if n > 0 {
      var before := ComboSteps(e, actions, n - 1, inp);
      FiredSteps(e, actions, n - 1, inp, o);
      assert Combo(before.combos, n - 1) == Combo(e.combos, n - 1) by {
        CombosAreIndependent(e, actions, n - 1, inp, n - 1);
      }
      FiredStep(before, n - 1, actions[n - 1], inp, o);
    }
  }

  lemma FeedProgress(s: Mapper, ev: Event, now: nat)
    requires s.app in s.macros
    ensures Feed(s, ev, now, false).progress
         == s.progress[s.app := ComboSteps(EngineOf(s), s.macros[s.app], |s.macros[s.app]|, InputOf(s, ev, now)).combos]
  {
  }

  lemma FeedTrackedOne(s: Mapper, ev: Event, now: nat, app: AppType, i: nat)
    requires Tracked(s) && app in s.macros && i < |s.macros[app]|
    ensures SameMark(MarkOf(Combo(CombosOf(Feed(s, ev, now, false).progress, app), i)),
                     ItemMark(s.macros[app][i], app, Isolated(s.macros[app][i], app, s.history), Given(s.app, ev, now, s.numLock)))
  {
    hide ComboSteps, NextCombo, NextMark, Isolated;
    var a, e, inp := s.macros[app][i], EngineOf(s), InputOf(s, ev, now);
    var c := Combo(CombosOf(s.progress, app), i);
    assert SameMark(MarkOf(c), Isolated(a, app, s.history));
    if app == s.app {
      FeedProgress(s, ev, now);
      assert Combo(ComboSteps(e, s.macros[app], |s.macros[app]|, inp).combos, i) == NextCombo(c, a, inp) by {
        CombosAreIndependent(e, s.macros[app], |s.macros[app]|, inp, i);
      }
      NextComboTracked(c, a, inp, Isolated(a, app, s.history));
    } else if s.app in s.macros {
      FeedProgress(s, ev, now);
    }
  }

  lemma FeedTracked(s: Mapper, ev: Event, now: nat, skip: bool)
    requires Tracked(s)
    ensures Tracked(Feed(s, ev, now, skip))
  {
    hide Feed, Isolated, SameMark;
    var s' := Feed(s, ev, now, skip);
    FeedFrame(s, ev, now, skip);
    forall app, i: nat | app in s'.macros && i < |s'.macros[app]|
      ensures SameMark(MarkOf(Combo(CombosOf(s'.progress, app), i)), Isolated(s'.macros[app][i], app, s'.history))
    {
      IsolatedSnoc(s.macros[app][i], app, s.history, ItemOf(s, ev, now, skip));
      if !skip {
        FeedTrackedOne(s, ev, now, app, i);
      } else {
        assert SameMark(MarkOf(Combo(CombosOf(s.progress, app), i)), Isolated(s.macros[app][i], app, s.history));
      }
    }
  }

  function ItemOf(s: Mapper, ev: Event, now: nat, skip: bool): Item
  {
    if skip then Bypassed(ev) else Given(s.app, ev, now, s.numLock)
  }

  lemma FeedFrame(s: Mapper, ev: Event, now: nat, skip: bool)
    ensures var s' := Feed(s, ev, now, skip);
            s'.macros == s.macros && s'.history == s.history + [ItemOf(s, ev, now, skip)]
            && (skip ==> s'.progress == s.progress && s'.out == s.out + [Forwarded(ev)])
  {
    hide ComboSteps;
  }

  /** In one event, an action fires exactly when the event completes it on its own. */
  lemma FeedFires(s: Mapper, ev: Event, now: nat, o: Output)
    requires Tracked(s) && o.Fired?
    ensures o in Feed(s, ev, now, false).out
       <==> (o in s.out
             || (o.app == s.app && o.at == |s.history| && o.action in ActionsOf(s.macros, s.app)
                 && Completes(o.action, o.app, s.history, Given(s.app, ev, now, s.numLock))))
  {
    hide ComboSteps, OutcomeOf, Isolated;
    if s.app in s.macros {
      var actions, e, inp := s.macros[s.app], EngineOf(s), InputOf(s, ev, now);
      FiredSteps(e, actions, |actions|, inp, o);
      forall i: nat | i < |actions|
        ensures CompletesTurn(actions[i], Combo(e.combos, i), inp) <==> Completes(actions[i], s.app, s.history, Given(s.app, ev, now, s.numLock))
      {
        assert SameMark(MarkOf(Combo(e.combos, i)), Isolated(actions[i], s.app, s.history));
        SameOutcome(actions[i], MarkOf(Combo(e.combos, i)), Isolated(actions[i], s.app, s.history), ev, now, s.numLock);
      }
    }
  }

  lemma SameOutcome(a: KeyAction, m: Mark, m': Mark, ev: Event, now: nat, numLock: bool)
    requires SameMark(m, m')
    ensures OutcomeOf(a, AfterTimeout(m, now), ev, numLock) == OutcomeOf(a, AfterTimeout(m', now), ev, numLock)
  {
  }

  lemma LongerHistory(s: Mapper, s': Mapper)
    requires FiredRightly(s) && s.history <= s'.history
    requires forall o | o in s'.out && o.Fired? :: o in s.out
    ensures FiredRightly(s')
  {
    forall o | o in s'.out && o.Fired?
      ensures o.at < |s'.history| && Completes(o.action, o.app, s'.history[..o.at], s'.history[o.at])
    {
      assert s'.history[..o.at] == s.history[..o.at];
    }
  }

  lemma FeedFiredRightly(s: Mapper, ev: Event, now: nat, skip: bool)
    requires Tracked(s) && FiredRightly(s)
    ensures FiredRightly(Feed(s, ev, now, skip))
  {
    hide Feed, Completes, Tracked;
    var s' := Feed(s, ev, now, skip);
    FeedFrame(s, ev, now, skip);
    forall o | o in s'.out && o.Fired?
      ensures o.at < |s'.history| && Completes(o.action, o.app, s'.history[..o.at], s'.history[o.at])
    {
      if !skip {
        FeedFires(s, ev, now, o);
      }
      assert s'.history[..o.at] == s.history[..o.at];
    }
  }

  // ----- Runs -----

  ghost predicate Explained(s: Mapper)
  {
    Tracked(s) && FiredRightly(s)
  }

  lemma ExplainedFrame(s: Mapper, s': Mapper)
    requires Explained(s)
    requires s'.macros == s.macros && s'.progress == s.progress && s'.out == s.out && s'.history == s.history
    ensures Explained(s')
  {
    LongerHistory(s, s');
  }

  lemma ClearedExplained(s: Mapper, s': Mapper)
    requires FiredRightly(s) && s'.history == s.history + [Cleared]
    requires forall o | o in s'.out && o.Fired? :: o in s.out
    requires forall app, i: nat :: Combo(CombosOf(s'.progress, app), i).next == 0
    ensures Explained(s')
  {
    LongerHistory(s, s');
    forall app, i: nat | app in s'.macros && i < |s'.macros[app]|
      ensures SameMark(MarkOf(Combo(CombosOf(s'.progress, app), i)), Isolated(s'.macros[app][i], app, s'.history))
    {
      IsolatedSnoc(s'.macros[app][i], app, s.history, Cleared);
    }
  }

  lemma ContextStageExplained(s: Mapper, ev: Event, now: nat, idle: bool)
    requires Explained(s)
    ensures Explained(ContextStage(s, ev, now, idle))
  {
    var s1, s' := Track(Emergency(s, ev, now), ev), ContextStage(s, ev, now, idle);
    TrackFrame(s, ev, now);
    ExplainedFrame(s, s1);
    if s' != s1 {
      ClearedExplained(s1, s');
    }
  }

  lemma {:induction false} ProcessExplained(s: Mapper, ev: Event, skip: bool, now: nat, idle: bool)
    requires Explained(s)
    ensures Explained(Process(s, ev, skip, now, idle))
    decreases if KEY_1 <= ev.code <= KEY_6 then 1 else 0
  {
    var s1 := ContextStage(s, ev, now, idle);
    ContextStageExplained(s, ev, now, idle);
    if s1.monitoring {
    } else if skip {
      FeedTracked(s1, ev, now, skip);
      FeedFiredRightly(s1, ev, now, skip);
    } else {
      var (g, k) := DetectG(s1.gToggle, ev);
      var s2 := s1.(gToggle := g);
      ExplainedFrame(s1, s2);
      if k > 0 {
        ProcessExplained(s2, Virtual(ev, k), false, now, idle);
      } else {
        FeedTracked(s2, ev, now, skip);
        FeedFiredRightly(s2, ev, now, skip);
      }
    }
  }

  lemma {:induction false} SyncedExplained(s: Mapper, rs: seq<Reading>)
    requires Explained(s)
    ensures Explained(Synced(s, rs))
  {
    if rs != [] {
      var r := rs[|rs| - 1];
      SyncedExplained(s, rs[..|rs| - 1]);
      ProcessExplained(Synced(s, rs[..|rs| - 1]), r.ev, true, r.now, r.idle);
    }
  }

  lemma PerformExplained(s: Mapper, op: Op)
    requires Explained(s)
    ensures Explained(Perform(s, op))
  {
    match op
    case Read(r) => ProcessExplained(s, r.ev, false, r.now, r.idle);
    case Resync(rs) =>
      ClearedExplained(s, Flush(s));
      SyncedExplained(Flush(s), rs);
    case Focus(app, url, title) =>
      if SetContext(s, app, url, title) != s {
        ClearedExplained(s, SetContext(s, app, url, title));
      }
    case Regrab(idle) => ExplainedFrame(s, Grab(s, idle));
    case LoadMacros(overlay) => ClearedExplained(s, Reload(s, overlay));
  }

  lemma {:induction false} ReachableExplained(s: Mapper, ops: seq<Op>)
    requires Initial(s)
    ensures Explained(Run(s, ops))
  {
    if ops != [] {
      ReachableExplained(s, ops[..|ops| - 1]);
      PerformExplained(Run(s, ops[..|ops| - 1]), ops[|ops| - 1]);
    }
  }

  // ----- Trails -----

  /** A code of the keyboard: no button (BTN_MISC up to KEY_OK) and no virtual key. */
  predicate KeyboardCode(code: nat)
  {
    code < 0x100 || 0x160 <= code < 1000
  }

  /** With NumLock on, combos are set aside that wait for or write anything but keys of the keyboard. */
  ghost predicate SetAside(a: KeyAction, numLock: bool)
  {
    numLock && ((exists step :: step in a.trigger.events && !(step.typ == 1 && KeyboardCode(step.code)))
                || (exists k :: k in a.keySequence && !KeyboardCode(k.0)))
  }

  /** The event is what the step waits for: a repeat counts as a press. */
  predicate Fits(step: Step, ev: Event)
  {
    && step.typ == ev.typ && step.code == ev.code
    && if ev.typ != 1 then ev.value == step.value
       else if ev.value == 2 then step.value == 1
       else ev.value == step.value && (step.value == 0 || step.value == 1)
  }

  ghost predicate CodeBefore(events: seq<Step>, n: nat, code: nat)
  {
    exists j :: 0 <= j < n && j < |events| && events[j].code == code
  }

  /** The item matches step `j` of the combo. */
  ghost predicate StepTaken(a: KeyAction, app: AppType, j: nat, item: Item)
  {
    && j < |a.trigger.events| && item.Given? && item.app == app
    && !SetAside(a, item.numLock) && Fits(a.trigger.events[j], item.ev)
  }

  /** The key event leaves a combo alone that waits for step `n`: it is no press where noise breaks, no
      release of a code of an earlier step, and a repeat only of such a code or where step `n` ignores
      repeats. */
  ghost predicate Harmless(t: KeyTrigger, n: nat, ev: Event)
    requires n < |t.events|
  {
    && (ev.value == 1 ==> !t.noiseBreaks)
    && (ev.value == 0 ==> !CodeBefore(t.events, n, ev.code))
    && (ev.value == 2 ==> CodeBefore(t.events, n, ev.code) || t.events[n].ignoreRepeat)
  }

  /** The item leaves a combo alone that last moved at time `t` and now waits for step `n`: it is
      no reset; if it concerns the combo's app, it comes within two seconds, is not step `n`, and if it
      is a key event it is harmless. */
  ghost predicate Undisturbed(a: KeyAction, app: AppType, n: nat, t: nat, item: Item)
  {
    match item
    case Cleared => false
    case Bypassed(_) => true
    case Given(app', ev, now, numLock) =>
      app' != app ||
      (n < |a.trigger.events| && now - t <= 2_000_000_000 && !SetAside(a, numLock)
       && !Fits(a.trigger.events[n], ev) && (ev.typ == 1 ==> Harmless(a.trigger, n, ev)))
  }

  lemma SetAsideIff(a: KeyAction, numLock: bool)
    ensures SetAside(a, numLock) <==> numLock && !KeyboardOnly(a)
  {
    var steps, keys := a.trigger.events, a.keySequence;
    assert forall j | 0 <= j < |steps| :: steps[j] in steps;
    assert forall j | 0 <= j < |keys| :: keys[j] in keys;
  }

  lemma FitsIff(step: Step, ev: Event)
    ensures Fits(step, ev) <==> Matches(step, ev)
  {
  }

  lemma HarmlessIff(t: KeyTrigger, n: nat, ev: Event)
    requires n < |t.events| && ev.typ == 1
    ensures Harmless(t, n, ev) <==> !Breaks(t, n, ev)
  {
    assert CodeBefore(t.events, n, ev.code) <==> CodeMatchedBefore(t.events, n, ev.code);
  }

  /** Nothing strictly between two positions disturbs a combo that moved at the first one. */
  ghost predicate Gap(a: KeyAction, app: AppType, h: seq<Item>, n: nat, from: nat, to: nat)
    requires from < |h| && h[from].Given? && to <= |h|
  {
    forall q | from < q < to :: Undisturbed(a, app, n, h[from].now, h[q])
  }

  function GapEnd(ps: seq<nat>, j: nat, h: seq<Item>): nat
  {
    if j + 1 < |ps| then ps[j + 1] else |h|
  }

  ghost predicate AllTaken(a: KeyAction, app: AppType, h: seq<Item>, ps: seq<nat>)
  {
    forall j | 0 <= j < |ps| :: ps[j] < |h| && StepTaken(a, app, j, h[ps[j]])
  }

  ghost predicate Ascends(ps: seq<nat>)
  {
    forall j, k | 0 <= j < k < |ps| :: ps[j] < ps[k]
  }

  ghost predicate Timely(h: seq<Item>, ps: seq<nat>, j: nat)
  {
    0 < j < |ps| && ps[j - 1] < |h| && ps[j] < |h| && h[ps[j - 1]].Given? && h[ps[j]].Given? ==>
      h[ps[j]].now - h[ps[j - 1]].now <= 2_000_000_000
  }

  /** `ps` are the positions in `h` of the items that took the first |ps| steps of the combo. */
  ghost predicate Trail(a: KeyAction, app: AppType, h: seq<Item>, ps: seq<nat>)
  {
    && AllTaken(a, app, h, ps)
    && Ascends(ps)
    && (forall j | 0 <= j < |ps| :: Timely(h, ps, j))
    && (forall j | 0 <= j < |ps| :: Gap(a, app, h, j + 1, ps[j], GapEnd(ps, j, h)))
  }

  /** The combo has no progress when the trail begins. */
  ghost predicate StartsIdle(a: KeyAction, app: AppType, h: seq<Item>, ps: seq<nat>)
    requires Trail(a, app, h, ps)
  {
    ps != [] ==> AfterTimeout(Isolated(a, app, h[..ps[0]]), h[ps[0]].now).next == 0
  }

  lemma TrailStays(a: KeyAction, app: AppType, h: seq<Item>, item: Item, ps: seq<nat>)
    requires Trail(a, app, h, ps) && ps != []
    requires Undisturbed(a, app, |ps|, h[ps[|ps| - 1]].now, item)
    ensures Trail(a, app, h + [item], ps)
  {
    var h' := h + [item];
    forall j | 0 <= j < |ps|
      ensures Timely(h', ps, j)
    {
      assert Timely(h, ps, j);
    }
    forall j | 0 <= j < |ps|
      ensures Gap(a, app, h', j + 1, ps[j], GapEnd(ps, j, h'))
    {
      assert Gap(a, app, h, j + 1, ps[j], GapEnd(ps, j, h));
    }
  }

  lemma TrailGrows(a: KeyAction, app: AppType, h: seq<Item>, item: Item, ps: seq<nat>)
    requires Trail(a, app, h, ps) && StepTaken(a, app, |ps|, item)
    requires ps != [] ==> item.now - h[ps[|ps| - 1]].now <= COMBO_TIMEOUT
    ensures Trail(a, app, h + [item], ps + [|h|])
  {
    var h', ps' := h + [item], ps + [|h|];
    assert Ascends(ps');
    forall j | 0 <= j < |ps'|
      ensures ps'[j] < |h'| && StepTaken(a, app, j, h'[ps'[j]])
      ensures Timely(h', ps', j)
    {
      assert j < |ps| ==> ps'[j] == ps[j] && h'[ps[j]] == h[ps[j]] && Timely(h, ps, j);
    }
    forall j | 0 <= j < |ps'|
      ensures Gap(a, app, h', j + 1, ps'[j], GapEnd(ps', j, h'))
    {
      if j < |ps| {
        GapCloses(a, app, h, item, ps, j);
      }
    }
  }

  lemma GapCloses(a: KeyAction, app: AppType, h: seq<Item>, item: Item, ps: seq<nat>, j: nat)
    requires Trail(a, app, h, ps) && j < |ps|
    ensures Gap(a, app, h + [item], j + 1, ps[j], GapEnd(ps + [|h|], j, h + [item]))
  {
    assert GapEnd(ps + [|h|], j, h + [item]) == GapEnd(ps, j, h);
    assert Gap(a, app, h, j + 1, ps[j], GapEnd(ps, j, h));
  }

  lemma TrailLoosens(a: KeyAction, app: AppType, h: seq<Item>, ps: seq<nat>)
    requires Trail(a, app, h, ps) && ps != [] && ps[|ps| - 1] < |h| - 1
    ensures Trail(a, app, h[..|h| - 1], ps)
    ensures Undisturbed(a, app, |ps|, h[ps[|ps| - 1]].now, h[|h| - 1])
  {
    var h0 := h[..|h| - 1];
    assert Gap(a, app, h, |ps|, ps[|ps| - 1], GapEnd(ps, |ps| - 1, h));
    hide StepTaken, Undisturbed;
    assert forall j | 0 <= j < |ps| :: ps[j] <= ps[|ps| - 1] < |h0| && h0[ps[j]] == h[ps[j]];
    assert AllTaken(a, app, h0, ps);
    forall j | 0 <= j < |ps|
      ensures Timely(h0, ps, j)
    {
      assert Timely(h, ps, j);
    }
    forall j | 0 <= j < |ps|
      ensures Gap(a, app, h0, j + 1, ps[j], GapEnd(ps, j, h0))
    {
      assert StepTaken(a, app, j, h[ps[j]]);
      assert h[ps[j]].Given? by { TakenIsGiven(a, app, j, h[ps[j]]); }
      assert Gap(a, app, h, j + 1, ps[j], GapEnd(ps, j, h));
    }
  }

  lemma TakenIsGiven(a: KeyAction, app: AppType, j: nat, item: Item)
    requires StepTaken(a, app, j, item)
    ensures item.Given?
  {
  }

  lemma TrailShrinks(a: KeyAction, app: AppType, h: seq<Item>, ps: seq<nat>)
    requires Trail(a, app, h, ps) && ps != [] && ps[|ps| - 1] == |h| - 1
    ensures Trail(a, app, h[..|h| - 1], ps[..|ps| - 1])
  {
    var h0, ps0 := h[..|h| - 1], ps[..|ps| - 1];
    assert Ascends(ps0);
    assert AllTaken(a, app, h0, ps0);
    forall j | 0 <= j < |ps0|
      ensures Timely(h0, ps0, j)
    {
      assert Timely(h, ps, j);
    }
    forall j | 0 <= j < |ps0|
      ensures Gap(a, app, h0, j + 1, ps0[j], GapEnd(ps0, j, h0))
    {
      GapShrinks(a, app, h, ps, j);
    }
  }

  lemma GapShrinks(a: KeyAction, app: AppType, h: seq<Item>, ps: seq<nat>, j: nat)
    requires Trail(a, app, h, ps) && ps != [] && ps[|ps| - 1] == |h| - 1 && j < |ps| - 1
    ensures Gap(a, app, h[..|h| - 1], j + 1, ps[j], GapEnd(ps[..|ps| - 1], j, h[..|h| - 1]))
  {
    var h0 := h[..|h| - 1];
    assert ps[j] < ps[|ps| - 1];
    assert GapEnd(ps, j, h) == ps[j + 1];
    assert GapEnd(ps[..|ps| - 1], j, h0) == ps[j + 1];
    assert Gap(a, app, h, j + 1, ps[j], ps[j + 1]);
  }

  /** What is known of a trail to a combo whose progress is `m`. */
  ghost predicate TrailTo(a: KeyAction, app: AppType, h: seq<Item>, ps: seq<nat>, m: Mark)
  {
    && Trail(a, app, h, ps) && StartsIdle(a, app, h, ps)
    && |ps| == m.next && (ps != [] ==> |ps| < |a.trigger.events| && m.last == h[ps[|ps| - 1]].now)
  }

  lemma TrailToStays(a: KeyAction, app: AppType, h: seq<Item>, item: Item, ps: seq<nat>, m: Mark)
    requires TrailTo(a, app, h, ps, m)
    requires ps != [] ==> Undisturbed(a, app, m.next, m.last, item)
    ensures TrailTo(a, app, h + [item], ps, m)
  {
    if ps != [] {
      TrailStays(a, app, h, item, ps);
      assert (h + [item])[..ps[0]] == h[..ps[0]];
    }
  }

  lemma TrailToGrows(a: KeyAction, app: AppType, h: seq<Item>, item: Item, ps: seq<nat>, m: Mark)
    requires TrailTo(a, app, h, ps, m) && StepTaken(a, app, m.next, item)
    requires m.next > 0 ==> item.now - m.last <= COMBO_TIMEOUT
    requires m.next == 0 ==> AfterTimeout(Isolated(a, app, h), item.now).next == 0
    ensures Trail(a, app, h + [item], ps + [|h|]) && StartsIdle(a, app, h + [item], ps + [|h|])
  {
    TrailGrows(a, app, h, item, ps);
    assert (h + [item])[..(ps + [|h|])[0]] == h[..(ps + [|h|])[0]];
    assert h[..|h|] == h;
  }

  /** A combo under way has left a trail. */
  lemma {:induction false} ProgressLeavesTrail(a: KeyAction, app: AppType, h: seq<Item>) returns (ps: seq<nat>)
    ensures TrailTo(a, app, h, ps, Isolated(a, app, h))
  {
    if h == [] {
      return [];
    }
    var h0, item := h[..|h| - 1], h[|h| - 1];
    assert h == h0 + [item];
    IsolatedSnoc(a, app, h0, item);
    ps := ProgressLeavesTrail(a, app, h0);
    ps := ItemLeavesTrail(a, app, h0, item, ps);
  }

  lemma IdleUndisturbed(a: KeyAction, app: AppType, m: Mark, item: Item)
    requires item.Given? && item.app == app && 0 < m.next < |a.trigger.events|
    requires !TimedOut(m, item.now) && OutcomeOf(a, m, item.ev, item.numLock) == Idle
    ensures Undisturbed(a, app, m.next, m.last, item)
  {
  }

  lemma TrailToAfterTimeout(a: KeyAction, app: AppType, h: seq<Item>, item: Item, ps: seq<nat>)
    requires TrailTo(a, app, h, ps, Isolated(a, app, h)) && item.Given?
    ensures var m1 := AfterTimeout(Isolated(a, app, h), item.now);
            TrailTo(a, app, h, if m1.next == 0 then [] else ps, m1)
  {
  }

  lemma ItemLeavesTrail(a: KeyAction, app: AppType, h: seq<Item>, item: Item, ps: seq<nat>) returns (ps': seq<nat>)
    requires TrailTo(a, app, h, ps, Isolated(a, app, h))
    ensures TrailTo(a, app, h + [item], ps', ItemMark(a, app, Isolated(a, app, h), item))
  {
    hide TrailTo, Trail, StartsIdle, StepTaken, Undisturbed, Matches, Breaks, KeyboardOnly;
    var m := Isolated(a, app, h);
    if item.Cleared? {
      NoTrail(a, app, h + [item], ItemMark(a, app, m, item));
      return [];
    } else if item.Bypassed? || item.app != app || a.trigger.events == [] {
      ElsewhereUndisturbed(a, app, h, item, ps, m);
      TrailToStays(a, app, h, item, ps, m);
      return ps;
    }
    var m1 := AfterTimeout(m, item.now);
    ps' := if m1.next == 0 then [] else ps;
    TrailToAfterTimeout(a, app, h, item, ps);
    match OutcomeOf(a, m1, item.ev, item.numLock)
    case Idle =>
      assert |ps'| == m1.next && (m1.next > 0 ==> m1.next < |a.trigger.events|) by { TrailLength(a, app, h, ps', m1); }
      if ps' != [] {
        IdleUndisturbed(a, app, m1, item);
      }
      TrailToStays(a, app, h, item, ps', m1);
    case Broken =>
      NoTrail(a, app, h + [item], ItemMark(a, app, m, item));
      ps' := [];
    case Completed =>
      NoTrail(a, app, h + [item], ItemMark(a, app, m, item));
      ps' := [];
    case Matched =>
      assert |ps'| == m1.next by { TrailLength(a, app, h, ps', m1); }
      assert StepTaken(a, app, m1.next, item) by { TakesStep(a, app, m1, item); }
      TrailToGrows(a, app, h, item, ps', m1);
      ps' := ps' + [|h|];
      GrownTrail(a, app, h + [item], ps', ItemMark(a, app, m, item));
  }

  lemma NoTrail(a: KeyAction, app: AppType, h: seq<Item>, m: Mark)
    requires m.next == 0
    ensures TrailTo(a, app, h, [], m)
  {
  }

  lemma TrailLength(a: KeyAction, app: AppType, h: seq<Item>, ps: seq<nat>, m: Mark)
    requires TrailTo(a, app, h, ps, m)
    ensures |ps| == m.next && (m.next > 0 ==> m.next < |a.trigger.events|)
  {
  }

  lemma ElsewhereUndisturbed(a: KeyAction, app: AppType, h: seq<Item>, item: Item, ps: seq<nat>, m: Mark)
    requires TrailTo(a, app, h, ps, m) && !item.Cleared?
    requires item.Bypassed? || item.app != app || a.trigger.events == []
    ensures ps != [] ==> Undisturbed(a, app, m.next, m.last, item)
  {
  }

  lemma TakesStep(a: KeyAction, app: AppType, m: Mark, item: Item)
    requires item.Given? && item.app == app
    requires var o := OutcomeOf(a, m, item.ev, item.numLock); o == Matched || o == Completed
    ensures StepTaken(a, app, m.next, item)
  {
  }

  lemma GrownTrail(a: KeyAction, app: AppType, h: seq<Item>, ps: seq<nat>, m: Mark)
    requires Trail(a, app, h, ps) && StartsIdle(a, app, h, ps)
    requires 0 < |ps| == m.next < |a.trigger.events| && m.last == h[ps[|ps| - 1]].now
    ensures TrailTo(a, app, h, ps, m)
  {
  }

  /** The next step of a combo under way. */
  lemma StepAdvances(a: KeyAction, app: AppType, m: Mark, item: Item)
    requires StepTaken(a, app, m.next, item) && m.next + 1 < |a.trigger.events|
    requires m.next > 0 ==> item.now - m.last <= COMBO_TIMEOUT
    ensures ItemMark(a, app, m, item) == Mark(m.next + 1, item.now)
  {
  }

  lemma FirstStep(a: KeyAction, app: AppType, m: Mark, item: Item)
    requires StepTaken(a, app, 0, item) && 1 < |a.trigger.events| && AfterTimeout(m, item.now).next == 0
    ensures ItemMark(a, app, m, item) == Mark(1, item.now)
  {
  }

  lemma UndisturbedStays(a: KeyAction, app: AppType, m: Mark, item: Item)
    requires m.next > 0 && Undisturbed(a, app, m.next, m.last, item)
    ensures ItemMark(a, app, m, item) == m
  {
  }

  /** A trail that starts fresh puts the combo under way. */
  lemma {:induction false} TrailMakesProgress(a: KeyAction, app: AppType, h: seq<Item>, ps: seq<nat>)
    requires Trail(a, app, h, ps) && StartsIdle(a, app, h, ps)
    requires ps != [] && |ps| < |a.trigger.events|
    ensures Isolated(a, app, h) == Mark(|ps|, h[ps[|ps| - 1]].now)
    decreases |h|
  {
    hide StepTaken, Undisturbed, ItemMark, Gap, Timely;
    var h0, item := h[..|h| - 1], h[|h| - 1];
    assert h == h0 + [item];
    IsolatedSnoc(a, app, h0, item);
    assert h[..ps[0]] == h0[..ps[0]];
    TakenIsGiven(a, app, |ps| - 1, h[ps[|ps| - 1]]);
    TakenIsGiven(a, app, 0, h[ps[0]]);
    if ps[|ps| - 1] == |h| - 1 {
      if |ps| > 1 {
        LastStep(a, app, h, ps);
        StepAdvances(a, app, Isolated(a, app, h0), item);
      } else {
        assert h[..ps[0]] == h0;
        FirstStep(a, app, Isolated(a, app, h0), item);
      }
    } else {
      TrailLoosens(a, app, h, ps);
      TrailMakesProgress(a, app, h0, ps);
      UndisturbedStays(a, app, Isolated(a, app, h0), item);
    }
  }

  lemma {:induction false} LastStep(a: KeyAction, app: AppType, h: seq<Item>, ps: seq<nat>)
    requires Trail(a, app, h, ps) && StartsIdle(a, app, h, ps)
    requires |ps| > 1 && ps[|ps| - 1] == |h| - 1
    ensures var m := Isolated(a, app, h[..|h| - 1]);
            m.next == |ps| - 1 && h[|h| - 1].now - m.last <= COMBO_TIMEOUT
    decreases |h|, 0
  {
    var h0, ps0 := h[..|h| - 1], ps[..|ps| - 1];
    TrailShrinks(a, app, h, ps);
    assert h[..ps[0]] == h0[..ps[0]] by { assert ps[0] < ps[|ps| - 1]; }
    TrailMakesProgress(a, app, h0, ps0);
    assert Timely(h, ps, |ps| - 1);
  }

  // ----- The same without the engine -----

  /** The trail takes some steps but not all, and the last one at most two seconds before `now`. */
  ghost predicate LeadsOn(a: KeyAction, app: AppType, h: seq<Item>, now: nat, ps: seq<nat>)
    decreases |h|, 1
  {
    && Trail(a, app, h, ps) && StartsFresh(a, app, h, ps)
    && 0 < |ps| < |a.trigger.events| && now - h[ps[|ps| - 1]].now <= 2_000_000_000
  }

  ghost predicate UnderWay(a: KeyAction, app: AppType, h: seq<Item>, now: nat)
    decreases |h|, 2
  {
    exists ps :: LeadsOn(a, app, h, now, ps)
  }

  /** The combo is not already under way when the trail begins: no trail that starts fresh leads on to
      there. */
  ghost predicate StartsFresh(a: KeyAction, app: AppType, h: seq<Item>, ps: seq<nat>)
    requires Trail(a, app, h, ps)
    decreases |h|, 0
  {
    ps != [] ==> !UnderWay(a, app, h[..ps[0]], h[ps[0]].now)
  }

  lemma {:induction false} UnderWayIff(a: KeyAction, app: AppType, h: seq<Item>, now: nat)
    ensures AfterTimeout(Isolated(a, app, h), now).next > 0 <==> UnderWay(a, app, h, now)
    decreases |h|, 1
  {
    hide Trail, StartsIdle, StartsFresh, Isolated;
    if AfterTimeout(Isolated(a, app, h), now).next > 0 {
      var ps := ProgressLeavesTrail(a, app, h);
      StartsFreshIff(a, app, h, ps);
      assert LeadsOn(a, app, h, now, ps);
    }
    forall ps | LeadsOn(a, app, h, now, ps)
      ensures AfterTimeout(Isolated(a, app, h), now).next > 0
    {
      StartsFreshIff(a, app, h, ps);
      TrailMakesProgress(a, app, h, ps);
    }
  }

  lemma {:induction false} StartsFreshIff(a: KeyAction, app: AppType, h: seq<Item>, ps: seq<nat>)
    requires Trail(a, app, h, ps)
    ensures StartsFresh(a, app, h, ps) <==> StartsIdle(a, app, h, ps)
    decreases |h|, 0
  {
    if ps != [] {
      UnderWayIff(a, app, h[..ps[0]], h[ps[0]].now);
    }
  }

  ghost predicate FullTrail(a: KeyAction, app: AppType, h: seq<Item>, ps: seq<nat>)
  {
    && Trail(a, app, h, ps) && StartsFresh(a, app, h, ps)
    && |ps| == |a.trigger.events| > 0 && ps[|ps| - 1] == |h| - 1
  }

  ghost predicate HasFullTrail(a: KeyAction, app: AppType, h: seq<Item>)
  {
    exists ps :: FullTrail(a, app, h, ps)
  }

  lemma CompletionHasTrail(a: KeyAction, app: AppType, h: seq<Item>, item: Item) returns (ps: seq<nat>)
    requires Completes(a, app, h, item)
    ensures FullTrail(a, app, h + [item], ps)
  {
    ps := ProgressLeavesTrail(a, app, h);
    var m1 := AfterTimeout(Isolated(a, app, h), item.now);
    if m1.next == 0 {
      ps := [];
    }
    assert TrailTo(a, app, h, ps, m1);
    assert StepTaken(a, app, m1.next, item) && m1.next + 1 == |a.trigger.events|;
    TrailToGrows(a, app, h, item, ps, m1);
    ps := ps + [|h|];
    StartsFreshIff(a, app, h + [item], ps);
  }

  lemma TrailCompletes(a: KeyAction, app: AppType, h: seq<Item>, item: Item, ps: seq<nat>)
    requires FullTrail(a, app, h + [item], ps)
    ensures Completes(a, app, h, item)
  {
    var h' := h + [item];
    assert h'[..|h'| - 1] == h;
    StartsFreshIff(a, app, h', ps);
    if |ps| > 1 {
      LastStep(a, app, h', ps);
    } else {
      assert h'[..ps[0]] == h;
    }
  }

  /** An item completes a combo exactly when it ends a full trail: one matching event per step in
      order, at most two seconds apart, nothing in between that disturbs the combo. */
  lemma CompletesIffTrail(a: KeyAction, app: AppType, h: seq<Item>, item: Item)
    ensures Completes(a, app, h, item) <==> HasFullTrail(a, app, h + [item])
  {
    if Completes(a, app, h, item) {
      var ps := CompletionHasTrail(a, app, h, item);
    }
    forall ps | FullTrail(a, app, h + [item], ps)
      ensures Completes(a, app, h, item)
    {
      TrailCompletes(a, app, h, item, ps);
    }
  }

  /** In every run, whatever fired had left a full trail in the history. */
  lemma FiresOnlyAfterTrail(s: Mapper, ops: seq<Op>, o: Output)
    requires Initial(s) && o in Run(s, ops).out && o.Fired?
    ensures o.at < |Run(s, ops).history|
    ensures HasFullTrail(o.action, o.app, Run(s, ops).history[..o.at + 1])
  {
    hide Run, Completes, FullTrail, HasFullTrail;
    var h := Run(s, ops).history;
    ReachableExplained(s, ops);
    assert h[..o.at + 1] == h[..o.at] + [h[o.at]];
    CompletesIffTrail(o.action, o.app, h[..o.at], h[o.at]);
  }
}
