/** Whatever is forwarded, replayed or withheld was handed to the macro stage before. */
module EventOrigin {
  import opened InputEvents
  import opened Suppression
  import opened MacroEngine
  import opened EngineInvariant
  import opened Pipeline
  import opened StateInvariant
  import opened EventOrder
  import opened RunOrder

  /** The events handed to the macro stage or past it, in order. */
  function Handed(history: seq<Item>): seq<Event>
  {
    if history == [] then [] else
    var rest := Handed(history[..|history| - 1]);
    match history[|history| - 1]
    case Given(_, ev, _, _) => rest + [ev]
    case Bypassed(ev) => rest + [ev]
    case Cleared => rest
  }

  lemma HandedSnoc(history: seq<Item>, item: Item)
    ensures Handed(history + [item]) == Handed(history) + if item.Given? || item.Bypassed? then [item.ev] else []
  {
    assert (history + [item])[..|history|] == history;
  }

  /** What is withheld, and what was written after the first `m` outputs, stems from `src`. */
  ghost predicate Sourced(w: Registry, out: seq<Output>, m: nat, src: iset<Event>)
  {
    && m <= |out|
    && (forall e | e in Written(out[m..]) :: e in src)
    && forall c, k | c in w && k in w[c] :: k.ev in src
  }

  lemma SourcedMore(w: Registry, out: seq<Output>, m: nat, src: iset<Event>, w': Registry, more: seq<Output>, src': iset<Event>)
    requires Sourced(w, out, m, src) && src <= src'
    requires forall c, k | c in w' && k in w'[c] :: k.ev in src' || (c in w && k in w[c])
    requires forall e | e in Written(more) :: e in src'
    ensures Sourced(w', out + more, m, src')
  {
    assert (out + more)[m..] == out[m..] + more;
    WrittenAppend(out[m..], more);
  }

  lemma SourcedAs(w: Registry, out: seq<Output>, m: nat, src: iset<Event>, w': Registry, src': iset<Event>)
    requires Sourced(w, out, m, src) && src <= src'
    requires forall c, k | c in w' && k in w'[c] :: k.ev in src' || (c in w && k in w[c])
    ensures Sourced(w', out, m, src')
  {
  }

  // ----- One event -----

  lemma AbandonSourced(e: Engine, i: nat, m: nat, src: iset<Event>)
    requires WellKeyed(e.registry) && Sourced(e.registry, e.out, m, src)
    ensures Sourced(Abandon(e, i).registry, Abandon(e, i).out, m, src)
  {
    var es := Replay(e.registry, i);
    WrittenReplays(es);
    forall x | x in es
      ensures x in src
    {
      ReplayMember(e.registry, i, x);
    }
    DiscardMembers(e.registry, {i});
    SourcedMore(e.registry, e.out, m, src, Discard(e.registry, {i}), Replays(es), src);
  }

  lemma DiscardMembers(w: Registry, owners: set<nat>)
    ensures forall c, k | c in Discard(w, owners) && k in Discard(w, owners)[c] :: c in w && k in w[c]
  {
    forall c, k | c in Discard(w, owners) && k in Discard(w, owners)[c]
      ensures c in w && k in w[c]
    {
      OutsideMember(w[c], owners, k);
    }
  }

  lemma AcceptSourced(e: Engine, i: nat, step: Step, inp: Input, m: nat, src: iset<Event>)
    requires Sourced(e.registry, e.out, m, src) && inp.ev in src
    ensures Sourced(Accept(e, i, step, inp).registry, Accept(e, i, step, inp).out, m, src)
  {
    SourcedAs(e.registry, e.out, m, src, Accept(e, i, step, inp).registry, src);
  }

  lemma CompleteSourced(e: Engine, i: nat, a: KeyAction, inp: Input, m: nat, src: iset<Event>)
    requires Sourced(e.registry, e.out, m, src)
    ensures Sourced(Complete(e, i, a, inp).registry, Complete(e, i, a, inp).out, m, src)
  {
    var fired := [Fired(a, inp.app, inp.at)];
    assert Written(fired) == [] by { assert fired[..0] == []; }
    DiscardMembers(e.registry, {i});
    SourcedMore(e.registry, e.out, m, src, Discard(e.registry, {i}), fired, src);
  }

  lemma ReactSourced(e: Engine, i: nat, a: KeyAction, inp: Input, m: nat, src: iset<Event>)
    requires WellKeyed(e.registry) && Sourced(e.registry, e.out, m, src) && inp.ev in src
    ensures Sourced(React(e, i, a, inp).registry, React(e, i, a, inp).out, m, src)
  {
    hide Abandon, Accept, Complete, Matches, Breaks, KeyboardOnly, Sourced, WellKeyed;
    var mark := MarkOf(Combo(e.combos, i));
    match OutcomeOf(a, mark, inp.ev, inp.numLock)
    case Idle =>
    case Broken => AbandonSourced(e, i, m, src);
    case Matched => AcceptSourced(e, i, a.trigger.events[mark.next], inp, m, src);
    case Completed =>
      AcceptSourced(e, i, a.trigger.events[mark.next], inp, m, src);
      CompleteSourced(Accept(e, i, a.trigger.events[mark.next], inp), i, a, inp, m, src);
  }

  lemma ComboStepSourced(e: Engine, i: nat, a: KeyAction, inp: Input, m: nat, src: iset<Event>)
    requires WellKeyed(e.registry) && Sourced(e.registry, e.out, m, src) && inp.ev in src
    ensures Sourced(ComboStep(e, i, a, inp).registry, ComboStep(e, i, a, inp).out, m, src)
  {
    if a.trigger.events != [] {
      AbandonSourced(e, i, m, src);
      DiscardWellKeyed(e.registry, {i});
      hide React, Sourced;
      ReactSourced(Expire(e, i, inp.now), i, a, inp, m, src);
    }
  }

  /** The turns from `from` up to `n`. */
  lemma {:induction false} ComboStepsSourced(e: Engine, actions: seq<KeyAction>, from: nat, n: nat, inp: Input, m: nat, src: iset<Event>)
    requires Consistent(e, actions) && from <= n <= |actions| && inp.ev in src
    requires Sourced(ComboSteps(e, actions, from, inp).registry, ComboSteps(e, actions, from, inp).out, m, src)
    ensures Sourced(ComboSteps(e, actions, n, inp).registry, ComboSteps(e, actions, n, inp).out, m, src)
  {
    hide ComboStep, Sourced, WellKeyed, Shared;
    if n > from {
      var before := ComboSteps(e, actions, n - 1, inp);
      ComboStepsSourced(e, actions, from, n - 1, inp, m, src);
      ComboStepsConsistent(e, actions, n - 1, inp);
      ComboStepSourced(before, n - 1, actions[n - 1], inp, m, src);
    }
  }

  // ----- Since some moment -----

  /** A moment in a run, by the numbers of outputs and of events handed in until then, and a set of
      events. */
  datatype Since = Since(out: nat, handed: nat, events: iset<Event>)

  /** The events of the moment, and those handed in later. */
  ghost function Sources(history: seq<Item>, t: Since): iset<Event>
    requires t.handed <= |Handed(history)|
  {
    t.events + iset e | e in Handed(history)[t.handed..]
  }

  /** What is withheld now and what was written since that moment is among the events of the moment
      or was handed in since. */
  ghost predicate FromSince(s: Mapper, t: Since)
  {
    t.handed <= |Handed(s.history)| && Sourced(s.registry, s.out, t.out, Sources(s.history, t))
  }

  lemma SourcesSnoc(history: seq<Item>, item: Item, t: Since)
    requires t.handed <= |Handed(history)|
    ensures t.handed <= |Handed(history + [item])| && Sources(history, t) <= Sources(history + [item], t)
    ensures item.Given? || item.Bypassed? ==> item.ev in Sources(history + [item], t)
  {
    HandedSnoc(history, item);
    var more := if item.Given? || item.Bypassed? then [item.ev] else [];
    assert Handed(history + [item])[t.handed..] == Handed(history)[t.handed..] + more;
  }

  lemma FeedFromSince(s: Mapper, ev: Event, now: nat, skip: bool, t: Since)
    requires Inv(s) && FromSince(s, t)
    ensures FromSince(Feed(s, ev, now, skip), t)
  {
    var s1 := MacroStage(s, ev, now, skip).0;
    MacroStageSourced(s, ev, now, skip, t);
    hide MacroStage, Sourced, Sources;
    ForwardSourced(s1.registry, s1.out, ev, t.out, Sources(s1.history, t));
  }

  lemma MacroStageSourced(s: Mapper, ev: Event, now: nat, skip: bool, t: Since)
    requires Inv(s) && FromSince(s, t)
    ensures var s1 := MacroStage(s, ev, now, skip).0;
            FromSince(s1, t) && ev in Sources(s1.history, t)
  {
    hide ComboSteps, Sourced, Sources;
    var item := if skip then Bypassed(ev) else Given(s.app, ev, now, s.numLock);
    var src := Sources(s.history + [item], t);
    SourcesSnoc(s.history, item, t);
    SourcedAs(s.registry, s.out, t.out, Sources(s.history, t), s.registry, src);
    if !skip && s.app in s.macros {
      var e, actions, inp := EngineOf(s), s.macros[s.app], InputOf(s, ev, now);
      assert ComboSteps(e, actions, 0, inp) == e by { NoTurn(e, actions, inp); }
      ComboStepsSourced(e, actions, 0, |actions|, inp, t.out, src);
    }
  }

  lemma NoTurn(e: Engine, actions: seq<KeyAction>, inp: Input)
    ensures ComboSteps(e, actions, 0, inp) == e
  {
  }

  lemma ForwardSourced(w: Registry, out: seq<Output>, ev: Event, m: nat, src: iset<Event>)
    requires Sourced(w, out, m, src) && ev in src
    ensures Sourced(w, out + [Forwarded(ev)], m, src)
  {
    assert Written([Forwarded(ev)]) == [ev] by { assert [Forwarded(ev)][..0] == []; }
    SourcedMore(w, out, m, src, w, [Forwarded(ev)], src);
  }

  lemma ReleaseAllFromSince(s: Mapper, t: Since)
    requires FromSince(s, t)
    ensures FromSince(ReleaseAll(s), t)
  {
    var releases := Releases(Ascending(s.pressed));
    SourcesSnoc(s.history, Cleared, t);
    WrittenReleases(Ascending(s.pressed));
    DiscardMembers(s.registry, Elements(VisitOrder(s.progress, AppOrder)));
    hide Sources;
    SourcedMore(s.registry, s.out, t.out, Sources(s.history, t), ReleaseAll(s).registry, releases, Sources(s.history + [Cleared], t));
  }

  lemma FlushFromSince(s: Mapper, t: Since)
    requires Inv(s) && FromSince(s, t)
    ensures FromSince(Flush(s), t)
  {
    var es, src := FlushClaims(s.registry, VisitOrder(s.progress, AppOrder)), Sources(s.history, t);
    SourcesSnoc(s.history, Cleared, t);
    WrittenReplays(es);
    DiscardMembers(s.registry, Elements(VisitOrder(s.progress, AppOrder)));
    forall e | e in es
      ensures e in src
    {
      OnCodeMember(es, e.code, e);
      FlushWithheld(s, e.code);
      var k :| k in Bucket(s.registry, e.code) && k.ev == e;
    }
    hide Sources, FlushClaims;
    SourcedMore(s.registry, s.out, t.out, src, Flush(s).registry, Replays(es), Sources(s.history + [Cleared], t));
  }

  lemma ContextStageFromSince(s: Mapper, ev: Event, now: nat, idle: bool, t: Since)
    requires FromSince(s, t)
    ensures FromSince(ContextStage(s, ev, now, idle), t)
  {
    TrackFrame(s, ev, now);
    hide Sources, Sourced;
    var s1 := Track(Emergency(s, ev, now), ev);
    var active := !s1.numLock;
    var s2 := s1.(numLock := active);
    ReleaseAllFromSince(if active then s2.(monitoring := true) else Grab(s2, idle), t);
  }

  lemma {:induction false} ProcessFromSince(s: Mapper, ev: Event, skip: bool, now: nat, idle: bool, t: Since)
    requires Inv(s) && FromSince(s, t)
    ensures FromSince(Process(s, ev, skip, now, idle), t)
    decreases if KEY_1 <= ev.code <= KEY_6 then 1 else 0
  {
    var s1 := ContextStage(s, ev, now, idle);
    ContextStageInv(s, ev, now, idle);
    ContextStageFromSince(s, ev, now, idle, t);
    hide ContextStage, Feed, Sources, Sourced;
    if !s1.monitoring {
      var (g, k) := DetectG(s1.gToggle, ev);
      var s2 := s1.(gToggle := g);
      InvFrame(s1, s2);
      if skip {
        FeedFromSince(s1, ev, now, skip, t);
      } else if k > 0 {
        ProcessFromSince(s2, Virtual(ev, k), false, now, idle, t);
      } else {
        FeedFromSince(s2, ev, now, skip, t);
      }
    }
  }

  lemma {:induction false} SyncedFromSince(s: Mapper, rs: seq<Reading>, t: Since)
    requires Inv(s) && FromSince(s, t)
    ensures FromSince(Synced(s, rs), t)
  {
    if rs != [] {
      var r := rs[|rs| - 1];
      SyncedFromSince(s, rs[..|rs| - 1], t);
      SyncedInv(s, rs[..|rs| - 1]);
      ProcessFromSince(Synced(s, rs[..|rs| - 1]), r.ev, true, r.now, r.idle, t);
    }
  }

  lemma PerformFromSince(s: Mapper, op: Op, t: Since)
    requires Inv(s) && FromSince(s, t)
    ensures FromSince(Perform(s, op), t)
  {
    match op
    case Read(r) => ProcessFromSince(s, r.ev, false, r.now, r.idle, t);
    case Resync(rs) =>
      FlushFromSince(s, t);
      FlushRests(s);
      AtRestInv(Flush(s));
      SyncedFromSince(Flush(s), rs, t);
    case Focus(app, url, title) => ReleaseAllFromSince(s.(app := app, url := url, title := title), t);
    case Regrab(idle) =>
    case LoadMacros(overlay) =>
      SourcesSnoc(s.history, Cleared, t);
      SourcedAs(s.registry, s.out, t.out, Sources(s.history, t), s.registry, Sources(s.history + [Cleared], t));
  }

  lemma {:induction false} RunFromSince(s: Mapper, ops: seq<Op>, t: Since)
    requires Inv(s) && Admissible(s, ops) && FromSince(s, t)
    ensures Inv(Run(s, ops)) && FromSince(Run(s, ops), t)
  {
    if ops != [] {
      var before, op := ops[..|ops| - 1], ops[|ops| - 1];
      RunFromSince(s, before, t);
      PerformInv(Run(s, before), op);
      PerformFromSince(Run(s, before), op, t);
    }
  }

  /** In every run, whatever was forwarded, replayed or is withheld had been handed in: with the
      strict arrival order of KeyEventsKeepTheirOrder, the key events written on a code are a
      subsequence of those handed in. */
  lemma WrittenEventsWereHandedIn(s: Mapper, ops: seq<Op>)
    requires Initial(s) && Admissible(s, ops)
    ensures var s', handed := Run(s, ops), Handed(Run(s, ops).history);
            && (forall e | e in Written(s'.out) :: e in handed)
            && forall c, k | k in Bucket(s'.registry, c) :: k.ev in handed
  {
    var start, s' := Since(0, 0, iset{}), Run(s, ops);
    AtRestInv(s);
    assert s.out[0..] == [];
    RunFromSince(s, ops, start);
    assert s'.out[0..] == s'.out && Handed(s'.history)[0..] == Handed(s'.history);
  }
}
