/** The input mapper as a state machine: its whole state and what every operation makes of it. */
module Pipeline {
  import opened Collections
  import opened InputEvents
  import opened Suppression
  import opened MacroEngine
  import opened ShippedMacros

  datatype Mapper = Mapper(
    macros: Macros,
    app: AppType, url: string, title: string,
    numLock: bool, monitoring: bool,
    gToggle: nat,
    pressed: set<nat>,
    scrollCount: nat, scrollFirst: nat,
    registry: Registry,
    progress: map<AppType, Combos>,
    out: seq<Output>,
    history: seq<Item>)

  function CombosOf(progress: map<AppType, Combos>, app: AppType): Combos
  {
    if app in progress then progress[app] else map[]
  }

  function ActionsOf(macros: Macros, app: AppType): seq<KeyAction>
  {
    if app in macros then macros[app] else []
  }

  // ----- G-keys -----

  /** The G-key automaton: its next state, and the number of the G-key detected (0 for none). */
  function DetectG(g: nat, ev: Event): (nat, nat)
  {
    if !ev.IsKey() then (g, 0)
    else if ev.code == KEY_LEFTCTRL then
      (if ev.value != 1 then g else if g == 1 then 2 else if g == 3 then 4 else 1, 0)
    else if ev.code == KEY_LEFTSHIFT then
      (if ev.value != 1 then g else if g == 2 then 3 else if g == 4 then 5 else 1, 0)
    else if g == 5 && KEY_1 <= ev.code <= KEY_6 then (1, ev.code - KEY_1 + 1)
    else (1, 0)
  }

  // ----- Letting go of everything -----

  ghost function Ascending(s: set<nat>): seq<nat>
  {
    if s == {} then [] else Ascending(s - {Greatest(s)}) + [Greatest(s)]
  }

  function Elements(order: seq<nat>): set<nat>
  {
    set i | i in order
  }

  const AppOrder: seq<AppType> := [OTHER, TERMINAL, CHROME, CODE]

  /** The combo indices in the order in which the nested loops over comboProgress_ visit them. */
  ghost function VisitOrder(progress: map<AppType, Combos>, apps: seq<AppType>): seq<nat>
  {
    if apps == [] then [] else
    VisitOrder(progress, apps[..|apps| - 1]) + Ascending(CombosOf(progress, apps[|apps| - 1]).Keys)
  }

  function ResetAll(progress: map<AppType, Combos>): map<AppType, Combos>
  {
    map a | a in progress :: map i | i in progress[a] :: progress[a][i].(next := 0, suppressed := [])
  }

  function Releases(codes: seq<nat>): seq<Output>
  {
    seq(|codes|, k requires 0 <= k < |codes| => Released(codes[k]))
  }

  /** Context change: drop what is withheld, forget all progress, release every pressed key. */
  ghost function ReleaseAll(s: Mapper): Mapper
  {
    s.(registry := Discard(s.registry, Elements(VisitOrder(s.progress, AppOrder))),
       progress := ResetAll(s.progress),
       out := s.out + Releases(Ascending(s.pressed)),
       pressed := {},
       history := s.history + [Cleared])
  }

  /** What combo `i` claims once the combos in `done` have claimed. */
  ghost function ClaimAfter(w: Registry, done: set<nat>, i: nat): seq<Event>
  {
    EventsOf(Claimed(Discard(w, done), i, Discard(w, done).Keys))
  }

  /** What a flush writes: each combo in turn writes all it claims, blocked or not. */
  ghost function FlushClaims(w: Registry, order: seq<nat>): seq<Event>
  {
    if order == [] then [] else
    FlushClaims(w, order[..|order| - 1]) + ClaimAfter(w, Elements(order[..|order| - 1]), order[|order| - 1])
  }

  ghost function Flush(s: Mapper): Mapper
  {
    var order := VisitOrder(s.progress, AppOrder);
    s.(registry := Discard(s.registry, Elements(order)),
       progress := ResetAll(s.progress),
       out := s.out + Replays(FlushClaims(s.registry, order)),
       gToggle := 1,
       history := s.history + [Cleared])
  }

  ghost function SetContext(s: Mapper, app: AppType, url: string, title: string): Mapper
  {
    if s.app == app && s.url == url && s.title == title then s
    else ReleaseAll(s.(app := app, url := url, title := title))
  }

  /** Grabbing waits until the hardware reports no key down and no key counts as pressed, and may
      give up; `idle` says whether the hardware did. */
  function Grab(s: Mapper, idle: bool): Mapper
  {
    if idle && s.pressed == {} then s.(monitoring := false) else s
  }

  ghost function SetNumLock(s: Mapper, active: bool, idle: bool): Mapper
  {
    if s.numLock == active then s else
    var s1 := s.(numLock := active);
    ReleaseAll(if active then s1.(monitoring := true) else Grab(s1, idle))
  }

  /** A reload clears the progress of all combos, but not the registry. The overlay replaces the
      macros app by app; where there are none at all, the shipped ones are loaded first. */
  function Reload(s: Mapper, overlay: Macros): Mapper
  {
    var defaults := if s.macros == map[] then Shipped else s.macros;
    s.(progress := map[], macros := defaults + overlay, history := s.history + [Cleared])
  }

  // ----- The stages -----

  /** Pause, or the third ScrollLock press within a second, gives the devices back. */
  function Emergency(s: Mapper, ev: Event, now: nat): Mapper
  {
    if !ev.IsKey() || ev.value != 1 then s
    else if ev.code == KEY_PAUSE then s.(monitoring := true)
    else if ev.code == KEY_SCROLLLOCK then
      if s.scrollCount == 0 || now - s.scrollFirst > SECOND then s.(scrollCount := 1, scrollFirst := now)
      else if s.scrollCount + 1 >= 3 then s.(scrollCount := 0, monitoring := true)
      else s.(scrollCount := s.scrollCount + 1)
    else s
  }

  function Track(s: Mapper, ev: Event): Mapper
  {
    if !ev.IsKey() then s
    else if ev.value == 1 then s.(pressed := s.pressed + {ev.code})
    else if ev.value == 0 then s.(pressed := s.pressed - {ev.code})
    else s
  }

  ghost function ContextStage(s: Mapper, ev: Event, now: nat, idle: bool): Mapper
  {
    var s1 := Track(Emergency(s, ev, now), ev);
    if ev.IsKey() && ev.code == KEY_NUMLOCK && ev.value == 1 then SetNumLock(s1, !s1.numLock, idle) else s1
  }

  function InputOf(s: Mapper, ev: Event, now: nat): Input
  {
    Input(ev, now, s.numLock, s.app, |s.history|)
  }

  function EngineOf(s: Mapper): Engine
  {
    Engine(s.registry, CombosOf(s.progress, s.app), s.out, false)
  }

  ghost function MacroStage(s: Mapper, ev: Event, now: nat, skip: bool): (Mapper, PipelineResult)
  {
    if skip then (s.(history := s.history + [Bypassed(ev)]), CONTINUE) else
    var s1 := s.(history := s.history + [Given(s.app, ev, now, s.numLock)]);
    if s.app !in s.macros then (s1, CONTINUE) else
    var e := ComboSteps(EngineOf(s), s.macros[s.app], |s.macros[s.app]|, InputOf(s, ev, now));
    (s1.(registry := e.registry, progress := s.progress[s.app := e.combos], out := e.out),
     if e.caught || (ev.IsKey() && ev.code in e.registry) then DROP else CONTINUE)
  }

  /** The macro stage followed by the final emission. */
  ghost function Feed(s: Mapper, ev: Event, now: nat, skip: bool): Mapper
  {
    var (s1, r) := MacroStage(s, ev, now, skip);
    if r == DROP then s1 else s1.(out := s1.out + [Forwarded(ev)])
  }

  function Virtual(ev: Event, k: nat): Event
  {
    ev.(code := VIRTUAL_BASE + k)
  }

  /** The whole pipeline. A detected G-key goes through it once more as a virtual event, which
      is never detected again. */
  ghost function Process(s: Mapper, ev: Event, skip: bool, now: nat, idle: bool): Mapper
    decreases if KEY_1 <= ev.code <= KEY_6 then 1 else 0
  {
    var s1 := ContextStage(s, ev, now, idle);
    if s1.monitoring then s1
    else if skip then Feed(s1, ev, now, skip)
    else
      var (g, k) := DetectG(s1.gToggle, ev);
      if k > 0 then Process(s1.(gToggle := g), Virtual(ev, k), false, now, idle)
      else Feed(s1.(gToggle := g), ev, now, skip)
  }

  // ----- Runs -----

  /** One event as read from a device. */
  datatype Reading = Reading(ev: Event, now: nat, idle: bool)

  datatype Op =
    | Read(reading: Reading)
    | Resync(readings: seq<Reading>)
    | Focus(app: AppType, url: string, title: string)
    | Regrab(idle: bool)
    | LoadMacros(overlay: Macros)

  ghost function Synced(s: Mapper, rs: seq<Reading>): Mapper
  {
    if rs == [] then s else
    var r := rs[|rs| - 1];
    Process(Synced(s, rs[..|rs| - 1]), r.ev, true, r.now, r.idle)
  }

  ghost function Perform(s: Mapper, op: Op): Mapper
  {
    match op
    case Read(r) => Process(s, r.ev, false, r.now, r.idle)
    case Resync(rs) => Synced(Flush(s), rs)
    case Focus(app, url, title) => SetContext(s, app, url, title)
    case Regrab(idle) => Grab(s, idle)
    case LoadMacros(overlay) => Reload(s, overlay)
  }

  ghost function Run(s: Mapper, ops: seq<Op>): Mapper
  {
    if ops == [] then s else Perform(Run(s, ops[..|ops| - 1]), ops[|ops| - 1])
  }

  /** The mapper before the first event: no progress, nothing withheld, nothing written. */
  ghost predicate Initial(s: Mapper)
  {
    s.gToggle == 1 && s.registry == map[] && s.progress == map[] && s.out == [] && s.history == []
  }
}
