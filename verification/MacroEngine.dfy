/** What one event does to the combos of the active application. */
module MacroEngine {
  import opened InputEvents
  import opened Suppression

  /** Progress of one combo: the next step to match, the events it withholds, and when it last moved. */
  datatype ComboState = ComboState(next: nat, suppressed: seq<Event>, lastMatch: nat)

  const Untouched := ComboState(0, [], 0)

  type Combos = map<nat, ComboState>

  function Combo(combos: Combos, i: nat): ComboState
  {
    if i in combos then combos[i] else Untouched
  }

  datatype Engine = Engine(registry: Registry, combos: Combos, out: seq<Output>, caught: bool)

  /** The event handed to the macro stage, with everything else the stage looks at. */
  datatype Input = Input(ev: Event, now: nat, numLock: bool, app: AppType, at: nat)

  // ----- Decisions about a single combo -----

  predicate Matches(step: Step, ev: Event)
  {
    && step.typ == ev.typ && step.code == ev.code
    && if ev.IsKey() then
         (step.value == 1 && (ev.value == 1 || ev.value == 2)) || (step.value == 0 && ev.value == 0)
       else step.value == ev.value
  }

  predicate CodeMatchedBefore(events: seq<Step>, n: nat, code: nat)
    requires n <= |events|
  {
    exists j :: 0 <= j < n && events[j].code == code
  }

  /** Does an event that is not step `n` break a combo that waits for step `n`? */
  predicate Breaks(t: KeyTrigger, n: nat, ev: Event)
    requires n < |t.events|
  {
    && ev.IsKey()
    && if ev.value == 1 && t.noiseBreaks then true
       else if ev.value == 0 && CodeMatchedBefore(t.events, n, ev.code) then true
       else ev.value == 2 && !CodeMatchedBefore(t.events, n, ev.code) && !t.events[n].ignoreRepeat
  }

  predicate OnKeyboard(code: nat)
  {
    !(BTN_MISC <= code < KEY_OK) && code < 1000
  }

  predicate KeyboardOnly(a: KeyAction)
  {
    && (forall j | 0 <= j < |a.trigger.events| :: a.trigger.events[j].typ == EV_KEY && OnKeyboard(a.trigger.events[j].code))
    && (forall j | 0 <= j < |a.keySequence| :: OnKeyboard(a.keySequence[j].0))
  }

  /** How far a combo is, without what it withholds. */
  datatype Mark = Mark(next: nat, last: nat)

  datatype Outcome = Idle | Broken | Matched | Completed

  predicate TimedOut(m: Mark, now: nat)
  {
    m.next > 0 && now - m.last > COMBO_TIMEOUT
  }

  function AfterTimeout(m: Mark, now: nat): Mark
  {
    if TimedOut(m, now) then Mark(0, m.last) else m
  }

  function OutcomeOf(a: KeyAction, m: Mark, ev: Event, numLock: bool): Outcome
  {
    if numLock && !KeyboardOnly(a) then
      if m.next > 0 then Broken else Idle
    else if m.next >= |a.trigger.events| then Idle
    else if Matches(a.trigger.events[m.next], ev) then
      if m.next + 1 == |a.trigger.events| then Completed else Matched
    else if m.next > 0 && Breaks(a.trigger, m.next, ev) then Broken
    else Idle
  }

  // ----- Effects on the shared state -----

  /** Timeout, NumLock or break: give up, writing what nobody else withholds. */
  ghost function Abandon(e: Engine, i: nat): Engine
  {
    e.(registry := Discard(e.registry, {i}),
       out := e.out + Replays(Replay(e.registry, i)),
       combos := e.combos[i := Combo(e.combos, i).(next := 0, suppressed := [])])
  }

  function Replays(es: seq<Event>): seq<Output>
  {
    seq(|es|, k requires 0 <= k < |es| => Replayed(es[k]))
  }

  function Accept(e: Engine, i: nat, step: Step, inp: Input): Engine
  {
    var c := Combo(e.combos, i);
    if step.suppress then
      e.(registry := Added(e.registry, inp.ev, i),
         combos := e.combos[i := ComboState(c.next + 1, c.suppressed + [inp.ev], inp.now)],
         caught := true)
    else
      e.(combos := e.combos[i := ComboState(c.next + 1, c.suppressed, inp.now)])
  }

  /** The last step matched: everything the combo withholds is swallowed and the action fires. */
  function Complete(e: Engine, i: nat, a: KeyAction, inp: Input): Engine
  {
    e.(registry := Discard(e.registry, {i}),
       out := e.out + [Fired(a, inp.app, inp.at)],
       combos := e.combos[i := Combo(e.combos, i).(next := 0, suppressed := [])])
  }

  function MarkOf(c: ComboState): Mark
  {
    Mark(c.next, c.lastMatch)
  }

  ghost function Expire(e: Engine, i: nat, now: nat): Engine
  {
    if TimedOut(MarkOf(Combo(e.combos, i)), now) then Abandon(e, i)
    else e.(combos := e.combos[i := Combo(e.combos, i)])
  }

  ghost function React(e: Engine, i: nat, a: KeyAction, inp: Input): Engine
  {
    var m := MarkOf(Combo(e.combos, i));
    match OutcomeOf(a, m, inp.ev, inp.numLock)
    case Idle => e
    case Broken => Abandon(e, i)
    case Matched => Accept(e, i, a.trigger.events[m.next], inp)
    case Completed => Complete(Accept(e, i, a.trigger.events[m.next], inp), i, a, inp)
  }

  /** One turn of the loop over the combos. */
  ghost function ComboStep(e: Engine, i: nat, a: KeyAction, inp: Input): Engine
  {
    if a.trigger.events == [] then e else React(Expire(e, i, inp.now), i, a, inp)
  }

  /** The first `n` turns of the loop. */
  ghost function ComboSteps(e: Engine, actions: seq<KeyAction>, n: nat, inp: Input): Engine
    requires n <= |actions|
  {
    if n == 0 then e else ComboStep(ComboSteps(e, actions, n - 1, inp), n - 1, actions[n - 1], inp)
  }

  // ----- Combos do not disturb each other -----

  /** The state of combo `i` after its own turn depends on its own state alone. */
  function NextCombo(c: ComboState, a: KeyAction, inp: Input): ComboState
  {
    if a.trigger.events == [] then c else
    var c1 := if TimedOut(MarkOf(c), inp.now) then c.(next := 0, suppressed := []) else c;
    match OutcomeOf(a, MarkOf(c1), inp.ev, inp.numLock)
    case Idle => c1
    case Broken => c1.(next := 0, suppressed := [])
    case Completed => ComboState(0, [], inp.now)
    case Matched =>
      ComboState(c1.next + 1, if a.trigger.events[c1.next].suppress then c1.suppressed + [inp.ev] else c1.suppressed, inp.now)
  }

  lemma ReactLocal(e: Engine, i: nat, a: KeyAction, inp: Input, j: nat)
    requires i in e.combos
    requires !TimedOut(MarkOf(e.combos[i]), inp.now) && a.trigger.events != []
    ensures Combo(React(e, i, a, inp).combos, j)
         == if j == i then NextCombo(e.combos[i], a, inp) else Combo(e.combos, j)
  {
    var m := MarkOf(e.combos[i]);
    match OutcomeOf(a, m, inp.ev, inp.numLock)
    case Idle =>
    case Broken =>
    case Matched =>
    case Completed =>
      var e1 := Accept(e, i, a.trigger.events[m.next], inp);
      assert e1.combos[i].lastMatch == inp.now;
  }

  lemma ComboStepLocal(e: Engine, i: nat, a: KeyAction, inp: Input, j: nat)
    ensures Combo(ComboStep(e, i, a, inp).combos, j)
         == if j == i then NextCombo(Combo(e.combos, i), a, inp) else Combo(e.combos, j)
  {
    if a.trigger.events != [] {
      var e1 := Expire(e, i, inp.now);
      assert Combo(e1.combos, j) == if j == i then e1.combos[i] else Combo(e.combos, j);
      ReactLocal(e1, i, a, inp, j);
    }
  }

  lemma {:induction false} CombosAreIndependent(e: Engine, actions: seq<KeyAction>, n: nat, inp: Input, j: nat)
    requires n <= |actions|
    ensures Combo(ComboSteps(e, actions, n, inp).combos, j)
         == if j < n then NextCombo(Combo(e.combos, j), actions[j], inp) else Combo(e.combos, j)
  {
    hide ComboStep, NextCombo;
    if n > 0 {
      CombosAreIndependent(e, actions, n - 1, inp, j);
      ComboStepLocal(ComboSteps(e, actions, n - 1, inp), n - 1, actions[n - 1], inp, j);
    }
  }
}
