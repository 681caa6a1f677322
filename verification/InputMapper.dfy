/** The input mapper itself: fields updated event by event, proved against the state machine. */
module InputMapping {
  import opened Collections
  import opened InputEvents
  import opened Suppression
  import opened MacroEngine
  import opened ShippedMacros
  import opened Pipeline
  import opened StateInvariant

  lemma AscendingNext(done: set<nat>, c: nat)
    requires forall d | d in done :: d < c
    ensures Ascending(done + {c}) == Ascending(done) + [c]
  {
    assert Greatest(done + {c}) == c && done + {c} - {c} == done;
  }

  lemma ElementsAscending(s: set<nat>)
    ensures Elements(Ascending(s)) == s
  {
    forall i: nat
      ensures i in Elements(Ascending(s)) <==> i in s
    {
      AscendingElements(s, i);
    }
  }

  lemma ElementsAppend(a: seq<nat>, b: seq<nat>)
    ensures Elements(a + b) == Elements(a) + Elements(b)
  {
  }

  lemma FlushClaimsSnoc(w: Registry, order: seq<nat>, i: nat)
    ensures FlushClaims(w, order + [i]) == FlushClaims(w, order) + ClaimAfter(w, Elements(order), i)
  {
    assert (order + [i])[..|order|] == order;
  }

  lemma ClaimAfterBoth(w: Registry, a: seq<nat>, b: seq<nat>, i: nat)
    ensures ClaimAfter(w, Elements(a + b), i) == ClaimAfter(Discard(w, Elements(a)), Elements(b), i)
  {
    hide Claimed, Elements, Discard;
    ElementsAppend(a, b);
    DiscardDiscard(w, Elements(a), Elements(b));
  }

  lemma FlushClaimsGlue(w: Registry, a: seq<nat>, before: seq<nat>, i: nat)
    requires FlushClaims(w, a + before) == FlushClaims(w, a) + FlushClaims(Discard(w, Elements(a)), before)
    ensures FlushClaims(w, (a + before) + [i]) == FlushClaims(w, a) + FlushClaims(Discard(w, Elements(a)), before + [i])
  {
    hide FlushClaims, Discard, ClaimAfter, Elements;
    var d := Discard(w, Elements(a));
    FlushClaimsSnoc(d, before, i);
    FlushClaimsSnoc(w, a + before, i);
    ClaimAfterBoth(w, a, before, i);
    Associative(FlushClaims(w, a), FlushClaims(d, before), ClaimAfter(d, Elements(before), i));
  }

  lemma {:induction false} FlushClaimsAppend(w: Registry, a: seq<nat>, b: seq<nat>)
    ensures FlushClaims(w, a + b) == FlushClaims(w, a) + FlushClaims(Discard(w, Elements(a)), b)
  {
    if b == [] {
      assert a + b == a;
    } else {
      hide FlushClaims, Discard;
      var before, i := b[..|b| - 1], b[|b| - 1];
      FlushClaimsAppend(w, a, before);
      FlushClaimsGlue(w, a, before, i);
      assert b == before + [i] && a + b == (a + before) + [i];
    }
  }

  lemma FlushClaimsNext(w: Registry, done: set<nat>, c: nat)
    requires forall d | d in done :: d < c
    ensures FlushClaims(w, Ascending(done + {c})) == FlushClaims(w, Ascending(done)) + ClaimAfter(w, done, c)
  {
    AscendingNext(done, c);
    ElementsAscending(done);
    FlushClaimsSnoc(w, Ascending(done), c);
  }

  lemma ReplaysAppend(a: seq<Event>, b: seq<Event>)
    ensures Replays(a + b) == Replays(a) + Replays(b)
  {
  }

  /** What a release or a flush writes of the events it claims. */
  function Wrote(replay: bool, es: seq<Event>): seq<Output>
  {
    if replay then Replays(es) else []
  }

  lemma WroteMore(o: seq<Output>, replay: bool, a: seq<Event>, b: seq<Event>)
    ensures (o + Wrote(replay, a)) + Wrote(replay, b) == o + Wrote(replay, a + b)
  {
    ReplaysAppend(a, b);
  }

  lemma ReleasesAppend(a: seq<nat>, b: seq<nat>)
    ensures Releases(a + b) == Releases(a) + Releases(b)
  {
  }

  function Put(progress: map<AppType, Combos>, app: AppType, i: nat, c: ComboState): map<AppType, Combos>
    requires app in progress
  {
    var combos: Combos := progress[app];
    var updated: Combos := combos[i := c];
    progress[app := updated]
  }

  /** Only the combos of `app` differ. */
  ghost predicate OnlyApp(p: map<AppType, Combos>, p': map<AppType, Combos>, app: AppType)
  {
    && p'.Keys == p.Keys + {app}
    && forall a | a in p && a != app :: p'[a] == p[a]
  }

  lemma OnlyAppUpdate(p: map<AppType, Combos>, p': map<AppType, Combos>, app: AppType)
    requires OnlyApp(p, p', app)
    ensures p' == p[app := p'[app]]
  {
  }

  function ResetCombos(combos: Combos, which: set<nat>): Combos
  {
    map i | i in combos :: if i in which then combos[i].(next := 0, suppressed := []) else combos[i]
  }

  function ResetApps(progress: map<AppType, Combos>, apps: seq<AppType>): map<AppType, Combos>
  {
    map a | a in progress :: if a in apps then ResetCombos(progress[a], progress[a].Keys) else progress[a]
  }

  lemma NoComboReset(combos: Combos)
    ensures ResetCombos(combos, {}) == combos
  {
  }

  lemma ResetComboNext(combos: Combos, done: set<nat>, i: nat)
    requires i in combos && i !in done
    ensures ResetCombos(combos, done)[i := combos[i].(next := 0, suppressed := [])] == ResetCombos(combos, done + {i})
  {
  }

  lemma NoAppReset(p: map<AppType, Combos>)
    ensures ResetApps(p, []) == p
  {
  }

  lemma OneAppReset(p: map<AppType, Combos>, app: AppType)
    ensures ResetApps(p, [app]) == if app in p then p[app := ResetCombos(p[app], p[app].Keys)] else p
  {
  }

  lemma ResetAppsNext(p: map<AppType, Combos>, apps: seq<AppType>, app: AppType)
    requires app !in apps
    ensures ResetApps(ResetApps(p, apps), [app]) == ResetApps(p, apps + [app])
  {
    var once, q := ResetApps(p, apps), ResetApps(p, apps + [app]);
    OneAppReset(once, app);
    forall a | a in p
      ensures ResetApps(once, [app])[a] == q[a]
    {
    }
  }

  lemma AllAppsReset(p: map<AppType, Combos>)
    ensures ResetApps(p, AppOrder) == ResetAll(p)
  {
    assert AppOrder[0] == OTHER && AppOrder[1] == TERMINAL && AppOrder[2] == CHROME && AppOrder[3] == CODE;
    forall a | a in p
      ensures ResetApps(p, AppOrder)[a] == ResetAll(p)[a]
    {
      assert a in AppOrder by {
        match a
        case OTHER =>
        case TERMINAL =>
        case CHROME =>
        case CODE =>
      }
      assert ResetCombos(p[a], p[a].Keys) == ResetAll(p)[a];
    }
  }

  method IsKeyboardOnlyMacro(a: KeyAction) returns (only: bool)
    ensures only == KeyboardOnly(a)
  {
    for j := 0 to |a.trigger.events|
      invariant forall k | 0 <= k < j :: a.trigger.events[k].typ == EV_KEY && OnKeyboard(a.trigger.events[k].code)
    {
      var step := a.trigger.events[j];
      if step.typ != EV_KEY || (BTN_MISC <= step.code < KEY_OK) || step.code >= 1000 {
        return false;
      }
    }
    for j := 0 to |a.keySequence|
      invariant forall k | 0 <= k < j :: OnKeyboard(a.keySequence[k].0)
    {
      var code := a.keySequence[j].0;
      if (BTN_MISC <= code < KEY_OK) || code >= 1000 {
        return false;
      }
    }
    return true;
  }

  method IsKeyInActiveCombo(events: seq<Step>, n: nat, code: nat) returns (found: bool)
    requires n <= |events|
    ensures found == CodeMatchedBefore(events, n, code)
  {
    for i := 0 to n
      invariant forall j | 0 <= j < i :: events[j].code != code
    {
      if events[i].code == code {
        return true;
      }
    }
    return false;
  }

  method ShouldBreak(t: KeyTrigger, n: nat, ev: Event) returns (breaks: bool)
    requires n < |t.events|
    ensures breaks == Breaks(t, n, ev)
  {
    breaks := false;
    if ev.typ == EV_KEY {
      var inCombo := IsKeyInActiveCombo(t.events, n, ev.code);
      if ev.value == 1 && t.noiseBreaks {
        breaks := true;
      } else if ev.value == 0 && inCombo {
        breaks := true;
      } else if ev.value == 2 && !inCombo && !t.events[n].ignoreRepeat {
        breaks := true;
      }
    }
  }

  /** The branches of the loop over the combos, in order. */
  method Judge(a: KeyAction, m: Mark, inp: Input) returns (o: Outcome)
    ensures o == OutcomeOf(a, m, inp.ev, inp.numLock)
  {
    hide Matches, Breaks, KeyboardOnly;
    var only := true;
    if inp.numLock {
      only := IsKeyboardOnlyMacro(a);
    }
    if !only {
      return if m.next > 0 then Broken else Idle;
    }
    if m.next >= |a.trigger.events| {
      return Idle;
    }
    if Matches(a.trigger.events[m.next], inp.ev) {
      return if m.next + 1 == |a.trigger.events| then Completed else Matched;
    }
    if m.next > 0 {
      var breaks := ShouldBreak(a.trigger, m.next, inp.ev);
      if breaks {
        return Broken;
      }
    }
    return Idle;
  }

  lemma StepExists(a: KeyAction, m: Mark, inp: Input)
    requires var o := OutcomeOf(a, m, inp.ev, inp.numLock); o == Matched || o == Completed
    ensures m.next < |a.trigger.events|
    ensures OutcomeOf(a, m, inp.ev, inp.numLock) == Completed <==> m.next + 1 == |a.trigger.events|
  {
  }

  lemma EmptyTurn(e: Engine, i: nat, a: KeyAction, inp: Input)
    requires a.trigger.events == []
    ensures ComboStep(e, i, a, inp) == e
  {
  }

  class InputMapper {
    const registry: SuppressionRegistry
    var macros: Macros
    var activeApp: AppType
    var activeUrl: string
    var activeTitle: string
    var numLockActive: bool
    var monitoringMode: bool
    var gToggleState: nat
    var pressedKeys: set<nat>
    var emergencyScrollCount: nat
    var emergencyFirstPress: nat
    var comboProgress: map<AppType, Combos>
    var out: seq<Output>
    var history: seq<Item>

    ghost function State(): Mapper
      reads this, registry
    {
      Mapper(macros, activeApp, activeUrl, activeTitle, numLockActive, monitoringMode, gToggleState, pressedKeys,
             emergencyScrollCount, emergencyFirstPress, registry.Contents(), comboProgress, out, history)
    }

    /** What the loop over the combos of `app` works on. */
    ghost function View(app: AppType, caught: bool): Engine
      reads this`comboProgress, this`out, registry
    {
      Engine(registry.Contents(), CombosOf(comboProgress, app), out, caught)
    }

    constructor ()
      ensures Initial(State()) && macros == Shipped && !monitoringMode
      ensures fresh(registry)
    {
      registry := new SuppressionRegistry();
      macros := Shipped;
      activeApp, activeUrl, activeTitle := OTHER, "", "";
      numLockActive, monitoringMode := false, false;
      gToggleState := 1;
      pressedKeys := {};
      emergencyScrollCount, emergencyFirstPress := 0, 0;
      comboProgress := map[];
      out, history := [], [];
    }

    // ----- Letting go of a combo -----

    /** Writes the claimed events whose code no combo withholds any more. */
    method EmitUnblocked(claimed: seq<WithheldKey>)
      modifies this`out, registry
      ensures registry.Contents() == old(registry.Contents())
      ensures out == old(out) + Replays(Unblocked(claimed, old(registry.Contents())))
    {
      ghost var w := registry.Contents();
      for k := 0 to |claimed|
        invariant registry.Contents() == w
        invariant out == old(out) + Replays(Unblocked(claimed[..k], w))
      {
        assert claimed[..k + 1][..k] == claimed[..k];
        var blocked := registry.IsBlocked(claimed[k].ev.code);
        if !blocked {
          out := out + [Replayed(claimed[k].ev)];
          ReplaysAppend(Unblocked(claimed[..k], w), [claimed[k].ev]);
        }
      }
      assert claimed[..|claimed|] == claimed;
    }

    method ResetCombo(app: AppType, i: nat)
      requires app in comboProgress
      modifies this`comboProgress
      ensures comboProgress == Put(old(comboProgress), app, i, Combo(old(comboProgress)[app], i).(next := 0, suppressed := []))
    {
      comboProgress := Put(comboProgress, app, i, Combo(comboProgress[app], i).(next := 0, suppressed := []));
    }

    /** Timeout, NumLock and break all let go of a combo in the same way. */
    method AbandonCombo(app: AppType, i: nat, ghost caught: bool)
      requires app in comboProgress
      modifies this`out, this`comboProgress, registry
      ensures View(app, caught) == Abandon(old(View(app, caught)), i)
      ensures OnlyApp(old(comboProgress), comboProgress, app)
    {
      var claimed := registry.Claim(i);
      EmitUnblocked(claimed);
      ResetCombo(app, i);
    }

    // ----- The macro stage -----

    method AcceptStep(app: AppType, i: nat, step: Step, inp: Input, wasCaught: bool) returns (caught: bool)
      requires app in comboProgress
      modifies this`comboProgress, registry
      ensures View(app, caught) == Accept(old(View(app, wasCaught)), i, step, inp)
      ensures OnlyApp(old(comboProgress), comboProgress, app)
    {
      hide Added;
      caught := wasCaught;
      var c := Combo(comboProgress[app], i);
      if step.suppress {
        caught := true;
        comboProgress := Put(comboProgress, app, i, ComboState(c.next + 1, c.suppressed + [inp.ev], inp.now));
        registry.Add(inp.ev, i);
      } else {
        comboProgress := Put(comboProgress, app, i, ComboState(c.next + 1, c.suppressed, inp.now));
      }
    }

    method CompleteCombo(app: AppType, i: nat, a: KeyAction, inp: Input, ghost caught: bool)
      requires app in comboProgress
      modifies this`out, this`comboProgress, registry
      ensures View(app, caught) == Complete(old(View(app, caught)), i, a, inp)
      ensures OnlyApp(old(comboProgress), comboProgress, app)
    {
      var swallowed := registry.Claim(i);
      out := out + [Fired(a, inp.app, inp.at)];
      ResetCombo(app, i);
    }

    method MatchStep(app: AppType, i: nat, a: KeyAction, inp: Input, next: nat, wasCaught: bool) returns (caught: bool)
      requires app in comboProgress && next < |a.trigger.events|
      modifies this`out, this`comboProgress, registry
      ensures var e1 := Accept(old(View(app, wasCaught)), i, a.trigger.events[next], inp);
              View(app, caught) == if next + 1 == |a.trigger.events| then Complete(e1, i, a, inp) else e1
      ensures OnlyApp(old(comboProgress), comboProgress, app)
    {
      caught := AcceptStep(app, i, a.trigger.events[next], inp, wasCaught);
      if next + 1 == |a.trigger.events| {
        CompleteCombo(app, i, a, inp, caught);
      }
    }

    method ReactToEvent(app: AppType, i: nat, a: KeyAction, inp: Input, wasCaught: bool) returns (caught: bool)
      requires app in comboProgress
      modifies this`out, this`comboProgress, registry
      ensures View(app, caught) == React(old(View(app, wasCaught)), i, a, inp)
      ensures OnlyApp(old(comboProgress), comboProgress, app)
    {
      hide OutcomeOf, Abandon, Accept, Complete;
      caught := wasCaught;
      var c := Combo(comboProgress[app], i);
      var o := Judge(a, MarkOf(c), inp);
      if o == Broken {
        AbandonCombo(app, i, caught);
      } else if o == Matched || o == Completed {
        StepExists(a, MarkOf(c), inp);
        caught := MatchStep(app, i, a, inp, c.next, wasCaught);
      }
    }

    method Turn(app: AppType, i: nat, a: KeyAction, inp: Input, wasCaught: bool) returns (caught: bool)
      requires app in comboProgress && a.trigger.events != []
      modifies this`out, this`comboProgress, registry
      ensures View(app, caught) == ComboStep(old(View(app, wasCaught)), i, a, inp)
      ensures OnlyApp(old(comboProgress), comboProgress, app)
    {
      hide React, Abandon;
      var c := Combo(comboProgress[app], i);
      if c.next > 0 && inp.now - c.lastMatch > COMBO_TIMEOUT {
        AbandonCombo(app, i, wasCaught);
      } else {
        comboProgress := Put(comboProgress, app, i, c);
      }
      assert View(app, wasCaught) == Expire(old(View(app, wasCaught)), i, inp.now);
      caught := ReactToEvent(app, i, a, inp, wasCaught);
    }

    method LoopOverCombos(app: AppType, inp: Input) returns (caught: bool)
      requires app in macros
      modifies this`out, this`comboProgress, registry
      ensures View(app, caught) == ComboSteps(old(View(app, false)), macros[app], |macros[app]|, inp)
      ensures OnlyApp(old(comboProgress), comboProgress, app)
    {
      hide ComboStep;
      caught := false;
      comboProgress := comboProgress[app := CombosOf(comboProgress, app)];
      for i := 0 to |macros[app]|
        invariant app in comboProgress
        invariant View(app, caught) == ComboSteps(old(View(app, false)), macros[app], i, inp)
        invariant OnlyApp(old(comboProgress), comboProgress, app)
      {
        if macros[app][i].trigger.events != [] {
          caught := Turn(app, i, macros[app][i], inp, caught);
        } else {
          EmptyTurn(View(app, caught), i, macros[app][i], inp);
        }
      }
    }

    method StageMacros(ev: Event, now: nat, skip: bool) returns (r: PipelineResult)
      modifies this`out, this`comboProgress, this`history, registry
      ensures (State(), r) == MacroStage(old(State()), ev, now, skip)
    {
      if skip {
        history := history + [Bypassed(ev)];
        return CONTINUE;
      }
      var inp := Input(ev, now, numLockActive, activeApp, |history|);
      history := history + [Given(activeApp, ev, now, numLockActive)];
      if activeApp !in macros {
        return CONTINUE;
      }
      ghost var was := comboProgress;
      var caught := LoopOverCombos(activeApp, inp);
      OnlyAppUpdate(was, comboProgress, activeApp);
      if caught {
        return DROP;
      }
      if ev.typ == EV_KEY {
        var blocked := registry.IsBlocked(ev.code);
        if blocked {
          return DROP;
        }
      }
      return CONTINUE;
    }

    // ----- Letting go of everything -----

    /** One turn of the loops of a release or a flush. */
    method DrainCombo(app: AppType, i: nat, replay: bool)
      requires app in comboProgress
      modifies this`out, this`comboProgress, registry
      ensures registry.Contents() == Discard(old(registry.Contents()), {i})
      ensures comboProgress == Put(old(comboProgress), app, i, Combo(old(comboProgress)[app], i).(next := 0, suppressed := []))
      ensures out == old(out) + Wrote(replay, EventsOf(Claimed(old(registry.Contents()), i, old(registry.Contents()).Keys)))
    {
      var claimed := registry.Claim(i);
      if replay {
        out := out + Replays(EventsOf(claimed));
      }
      ResetCombo(app, i);
    }

    /** The combos of `app` in `done` are drained, starting from registry `w`, progress `p`, output `o`. */
    ghost predicate Drained(w: Registry, p: map<AppType, Combos>, o: seq<Output>, app: AppType, done: set<nat>, replay: bool)
      requires app in p
      reads this`out, this`comboProgress, registry
    {
      && registry.Contents() == Discard(w, done)
      && comboProgress == p[app := ResetCombos(p[app], done)]
      && out == o + Wrote(replay, FlushClaims(w, Ascending(done)))
    }

    method DrainNext(ghost w: Registry, ghost p: map<AppType, Combos>, ghost o: seq<Output>, app: AppType, ghost done: set<nat>,
                     i: nat, replay: bool)
      requires app in p && Drained(w, p, o, app, done, replay)
      requires i in p[app] && i !in done && forall d | d in done :: d < i
      modifies this`out, this`comboProgress, registry
      ensures Drained(w, p, o, app, done + {i}, replay)
    {
      hide Discard, FlushClaims, Ascending, Replays;
      assert FlushClaims(w, Ascending(done + {i})) == FlushClaims(w, Ascending(done)) + ClaimAfter(w, done, i) by {
        FlushClaimsNext(w, done, i);
      }
      assert Discard(Discard(w, done), {i}) == Discard(w, done + {i}) by {
        DiscardDiscard(w, done, {i});
      }
      WroteMore(o, replay, FlushClaims(w, Ascending(done)), ClaimAfter(w, done, i));
      ResetComboNext(p[app], done, i);
      DrainCombo(app, i, replay);
    }

    /** The inner loop of a release or a flush: claim for every combo of one app and reset it. */
    method DrainLoop(ghost w: Registry, ghost p: map<AppType, Combos>, ghost o: seq<Output>, app: AppType, replay: bool)
      requires app in p && comboProgress == p && Drained(w, p, o, app, {}, replay)
      modifies this`out, this`comboProgress, registry
      ensures Drained(w, p, o, app, p[app].Keys, replay)
    {
      var todo := comboProgress[app].Keys;
      hide Drained;
      ghost var done := {};
      while todo != {}
        invariant done + todo == p[app].Keys && done !! todo
        invariant forall c, d | c in done && d in todo :: c < d
        invariant Drained(w, p, o, app, done, replay)
      {
        var i := Least(todo);
        DrainNext(w, p, o, app, done, i, replay);
        done, todo := done + {i}, todo - {i};
      }
      assert done == p[app].Keys;
    }

    method DrainApp(app: AppType, replay: bool)
      modifies this`out, this`comboProgress, registry
      ensures registry.Contents() == Discard(old(registry.Contents()), CombosOf(old(comboProgress), app).Keys)
      ensures comboProgress == ResetApps(old(comboProgress), [app])
      ensures out == old(out) + Wrote(replay, FlushClaims(old(registry.Contents()), Ascending(CombosOf(old(comboProgress), app).Keys)))
    {
      ghost var w, p, o := registry.Contents(), comboProgress, out;
      NothingDiscarded(w);
      OneAppReset(p, app);
      assert CombosOf(p, app).Keys == if app in p then p[app].Keys else {};
      if app in comboProgress {
        NoComboReset(p[app]);
        DrainLoop(w, p, o, app, replay);
      }
    }

    /** All combos of the apps in `apps` are drained. */
    ghost predicate DrainedApps(w: Registry, p: map<AppType, Combos>, o: seq<Output>, apps: seq<AppType>, replay: bool)
      reads this`out, this`comboProgress, registry
    {
      && registry.Contents() == Discard(w, Elements(VisitOrder(p, apps)))
      && comboProgress == ResetApps(p, apps)
      && out == o + Wrote(replay, FlushClaims(w, VisitOrder(p, apps)))
    }

    method DrainNextApp(ghost w: Registry, ghost p: map<AppType, Combos>, ghost o: seq<Output>, ghost apps: seq<AppType>,
                        app: AppType, replay: bool)
      requires app !in apps && DrainedApps(w, p, o, apps, replay)
      modifies this`out, this`comboProgress, registry
      ensures DrainedApps(w, p, o, apps + [app], replay)
    {
      ghost var before, keys := VisitOrder(p, apps), CombosOf(p, app).Keys;
      ghost var more := FlushClaims(Discard(w, Elements(before)), Ascending(keys));
      assert VisitOrder(p, apps + [app]) == before + Ascending(keys) by { assert (apps + [app])[..|apps|] == apps; }
      assert CombosOf(comboProgress, app).Keys == keys;
      assert Discard(Discard(w, Elements(before)), keys) == Discard(w, Elements(before + Ascending(keys))) by {
        ElementsAscending(keys);
        ElementsAppend(before, Ascending(keys));
        DiscardDiscard(w, Elements(before), keys);
      }
      assert FlushClaims(w, before + Ascending(keys)) == FlushClaims(w, before) + more by {
        FlushClaimsAppend(w, before, Ascending(keys));
      }
      WroteMore(o, replay, FlushClaims(w, before), more);
      ResetAppsNext(p, apps, app);
      DrainApp(app, replay);
    }

    /** The nested loops over all combos of all apps. */
    method DrainAll(replay: bool)
      modifies this`out, this`comboProgress, registry
      ensures registry.Contents() == Discard(old(registry.Contents()), Elements(VisitOrder(old(comboProgress), AppOrder)))
      ensures comboProgress == ResetAll(old(comboProgress))
      ensures out == old(out) + Wrote(replay, FlushClaims(old(registry.Contents()), VisitOrder(old(comboProgress), AppOrder)))
    {
      ghost var w, p, o := registry.Contents(), comboProgress, out;
      NothingDiscarded(w);
      NoAppReset(p);
      assert Elements(VisitOrder(p, [])) == {} && AppOrder[..0] == [];
      assert DrainedApps(w, p, o, [], replay);
      hide VisitOrder, ResetApps, FlushClaims, Discard, Elements, ResetAll;
      for k := 0 to |AppOrder|
        invariant DrainedApps(w, p, o, AppOrder[..k], replay)
      {
        assert AppOrder[..k + 1] == AppOrder[..k] + [AppOrder[k]];
        DrainNextApp(w, p, o, AppOrder[..k], AppOrder[k], replay);
      }
      assert AppOrder[..|AppOrder|] == AppOrder;
      AllAppsReset(p);
    }

    method EmitReleases()
      modifies this`out
      ensures out == old(out) + Releases(Ascending(pressedKeys))
    {
      var todo := pressedKeys;
      ghost var done := {};
      while todo != {}
        invariant done + todo == pressedKeys && done !! todo
        invariant forall c, d | c in done && d in todo :: c < d
        invariant out == old(out) + Releases(Ascending(done))
      {
        var code := Least(todo);
        AscendingNext(done, code);
        ReleasesAppend(Ascending(done), [code]);
        out := out + [Released(code)];
        done, todo := done + {code}, todo - {code};
      }
      assert done == pressedKeys;
    }

    method ReleaseAllPressedKeys()
      modifies this`out, this`comboProgress, this`pressedKeys, this`history, registry
      ensures State() == ReleaseAll(old(State()))
    {
      hide VisitOrder, FlushClaims, Discard, Elements, ResetAll, Releases, Ascending;
      DrainAll(false);
      EmitReleases();
      pressedKeys := {};
      history := history + [Cleared];
    }

    method FlushAndResetState()
      modifies this`out, this`comboProgress, this`gToggleState, this`history, registry
      ensures State() == Flush(old(State()))
    {
      DrainAll(true);
      gToggleState := 1;
      history := history + [Cleared];
    }

    // ----- Context -----

    method SetContext(app: AppType, url: string, title: string)
      modifies this, registry
      ensures State() == Pipeline.SetContext(old(State()), app, url, title)
    {
      if activeApp == app && activeUrl == url && activeTitle == title {
        return;
      }
      hide ReleaseAll;
      activeApp, activeUrl, activeTitle := app, url, title;
      ReleaseAllPressedKeys();
    }

    method GrabDevices(idle: bool)
      modifies this`monitoringMode
      ensures State() == Grab(old(State()), idle)
    {
      if idle && pressedKeys == {} {
        monitoringMode := false;
      }
    }

    method UngrabDevices()
      modifies this`monitoringMode
      ensures monitoringMode
    {
      monitoringMode := true;
    }

    method SetNumLockState(active: bool, idle: bool)
      modifies this, registry
      ensures State() == SetNumLock(old(State()), active, idle)
    {
      if numLockActive != active {
        numLockActive := active;
        if active {
          UngrabDevices();
        } else {
          GrabDevices(idle);
        }
        ReleaseAllPressedKeys();
      }
    }

    method SetMacros(overlay: Macros)
      modifies this`macros, this`comboProgress, this`history
      ensures State() == Reload(old(State()), overlay)
    {
      if macros == map[] {
        macros := Shipped;
      }
      comboProgress := map[];
      macros := macros + overlay;
      history := history + [Cleared];
    }

    // ----- The pipeline -----

    method StageContext(ev: Event, now: nat, idle: bool)
      modifies this, registry
      ensures State() == ContextStage(old(State()), ev, now, idle)
    {
      if ev.typ == EV_KEY && ev.code == KEY_PAUSE && ev.value == 1 {
        UngrabDevices();
      }
      if ev.typ == EV_KEY && ev.code == KEY_SCROLLLOCK && ev.value == 1 {
        if emergencyScrollCount == 0 || now - emergencyFirstPress > SECOND {
          emergencyScrollCount, emergencyFirstPress := 1, now;
        } else {
          emergencyScrollCount := emergencyScrollCount + 1;
          if emergencyScrollCount >= 3 {
            emergencyScrollCount := 0;
            UngrabDevices();
          }
        }
      }
      assert State() == Emergency(old(State()), ev, now);
      if ev.typ == EV_KEY {
        if ev.value == 1 {
          pressedKeys := pressedKeys + {ev.code};
        } else if ev.value == 0 {
          pressedKeys := pressedKeys - {ev.code};
        }
        if ev.code == KEY_NUMLOCK && ev.value == 1 {
          SetNumLockState(!numLockActive, idle);
        }
      }
    }

    method DetectGKey(ev: Event) returns (k: nat)
      modifies this`gToggleState
      ensures (gToggleState, k) == DetectG(old(gToggleState), ev)
    {
      if ev.typ != EV_KEY {
        return 0;
      }
      if ev.code == KEY_LEFTCTRL {
        if ev.value == 1 {
          if gToggleState == 1 {
            gToggleState := 2;
          } else if gToggleState == 3 {
            gToggleState := 4;
          } else {
            gToggleState := 1;
          }
        }
        return 0;
      }
      if ev.code == KEY_LEFTSHIFT {
        if ev.value == 1 {
          if gToggleState == 2 {
            gToggleState := 3;
          } else if gToggleState == 4 {
            gToggleState := 5;
          } else {
            gToggleState := 1;
          }
        }
        return 0;
      }
      if gToggleState == 5 {
        gToggleState := 1;
        if KEY_1 <= ev.code <= KEY_6 {
          return ev.code - KEY_1 + 1;
        }
        return 0;
      }
      gToggleState := 1;
      return 0;
    }

    method ProcessEvent(ev: Event, skip: bool, now: nat, idle: bool)
      modifies this, registry
      ensures State() == Process(old(State()), ev, skip, now, idle)
      decreases if KEY_1 <= ev.code <= KEY_6 then 1 else 0
    {
      StageContext(ev, now, idle);
      if monitoringMode {
        return;
      }
      if !skip {
        var k := DetectGKey(ev);
        if k > 0 {
          ProcessEvent(ev.(code := VIRTUAL_BASE + k), false, now, idle);
          return;
        }
      }
      var r := StageMacros(ev, now, skip);
      if r != DROP {
        out := out + [Forwarded(ev)];
      }
    }

    /** A device reports that events were lost: flush, then take in the state it reports. */
    method OnSyncStatus(readings: seq<Reading>)
      modifies this, registry
      ensures State() == Perform(old(State()), Resync(readings))
    {
      FlushAndResetState();
      ghost var s := State();
      for k := 0 to |readings|
        invariant State() == Synced(s, readings[..k])
      {
        assert readings[..k + 1][..k] == readings[..k];
        ProcessEvent(readings[k].ev, true, readings[k].now, readings[k].idle);
      }
      assert readings[..|readings|] == readings;
    }
  }
}
