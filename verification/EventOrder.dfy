/** No key event is duplicated or reordered on its way to the virtual device. */
module EventOrder {
  import opened InputEvents
  import opened Suppression
  import opened MacroEngine
  import opened EngineInvariant
  import opened Pipeline
  import opened StateInvariant

  /** The events forwarded or replayed, in the order in which they are written. */
  function Written(out: seq<Output>): seq<Event>
  {
    if out == [] then [] else
    var rest := Written(out[..|out| - 1]);
    match out[|out| - 1]
    case Forwarded(ev) => rest + [ev]
    case Replayed(ev) => rest + [ev]
    case _ => rest
  }

  function KeyPart(es: seq<Event>): seq<Event>
  {
    if es == [] then [] else
    var rest, last := KeyPart(es[..|es| - 1]), es[|es| - 1];
    if last.IsKey() then rest + [last] else rest
  }

  /** The EV_KEY events with code `c` among the forwarded and replayed events. */
  function Stream(out: seq<Output>, c: nat): seq<Event>
  {
    KeyPart(OnCode(Written(out), c))
  }

  // ----- Appending -----

  lemma {:induction false} WrittenAppend(a: seq<Output>, b: seq<Output>)
    ensures Written(a + b) == Written(a) + Written(b)
  {
    if b == [] {
      assert a + b == a;
    } else {
      WrittenAppend(a, b[..|b| - 1]);
      assert (a + b)[..|a + b| - 1] == a + b[..|b| - 1];
    }
  }

  lemma {:induction false} WrittenReplays(es: seq<Event>)
    ensures Written(Replays(es)) == es
  {
    if es != [] {
      WrittenReplays(es[..|es| - 1]);
      assert Replays(es)[..|es| - 1] == Replays(es[..|es| - 1]);
    }
  }

  lemma {:induction false} WrittenReleases(codes: seq<nat>)
    ensures Written(Releases(codes)) == []
  {
    if codes != [] {
      WrittenReleases(codes[..|codes| - 1]);
      assert Releases(codes)[..|codes| - 1] == Releases(codes[..|codes| - 1]);
    }
  }

  lemma {:induction false} KeyPartAppend(a: seq<Event>, b: seq<Event>)
    ensures KeyPart(a + b) == KeyPart(a) + KeyPart(b)
  {
    if b == [] {
      assert a + b == a;
    } else {
      KeyPartAppend(a, b[..|b| - 1]);
      assert (a + b)[..|a + b| - 1] == a + b[..|b| - 1];
    }
  }

  lemma {:induction false} KeyPartMember(es: seq<Event>, e: Event)
    ensures e in KeyPart(es) <==> e in es && e.IsKey()
  {
    if es != [] {
      KeyPartMember(es[..|es| - 1], e);
      assert es == es[..|es| - 1] + [es[|es| - 1]];
    }
  }

  lemma {:induction false} KeyPartInOrder(es: seq<Event>)
    requires InOrder(es)
    ensures InOrder(KeyPart(es))
  {
    if es != [] {
      var before, last := es[..|es| - 1], es[|es| - 1];
      KeyPartInOrder(before);
      forall e | e in KeyPart(before)
        ensures e.arrival < last.arrival
      {
        KeyPartMember(before, e);
      }
    }
  }

  lemma InOrderConcat(a: seq<Event>, b: seq<Event>)
    requires InOrder(a) && InOrder(b)
    requires forall x, y | x in a && y in b :: x.arrival < y.arrival
    ensures InOrder(a + b)
  {
    forall j, k | 0 <= j < k < |a + b|
      ensures (a + b)[j].arrival < (a + b)[k].arrival
    {
      assert j < |a| <= k ==> (a + b)[j] in a && (a + b)[k] in b;
    }
  }

  lemma StreamAppend(out: seq<Output>, more: seq<Output>, c: nat)
    ensures Stream(out + more, c) == Stream(out, c) + Stream(more, c)
  {
    WrittenAppend(out, more);
    OnCodeAppend(Written(out), Written(more), c);
    KeyPartAppend(OnCode(Written(out), c), OnCode(Written(more), c));
  }

  // ----- The ordering invariant, code by code -----

  /** Arrivals never fall along a bucket. */
  ghost predicate Rising(b: seq<WithheldKey>)
  {
    forall j, k :: 0 <= j < k < |b| ==> b[j].ev.arrival <= b[k].ev.arrival
  }

  ghost predicate BucketOrdered(b: seq<WithheldKey>, bound: nat)
  {
    && Rising(b)
    && (forall k | k in b :: k.ev.arrival < bound)
    && forall i: nat :: InOrder(Own(b, i))
  }

  /** What is written on a code is in order, and all of it is older than what is withheld on it. */
  ghost predicate CodeOrdered(w: Registry, out: seq<Output>, bound: nat, c: nat)
  {
    && BucketOrdered(Bucket(w, c), bound)
    && InOrder(Stream(out, c))
    && (forall e | e in Stream(out, c) :: e.arrival < bound)
    && forall e, k | e in Stream(out, c) && k in Bucket(w, c) && k.ev.IsKey() :: e.arrival < k.ev.arrival
  }

  ghost predicate Ordered(w: Registry, out: seq<Output>, bound: nat)
  {
    forall c: nat :: CodeOrdered(w, out, bound, c)
  }

  lemma {:induction false} OutsideOrdered(b: seq<WithheldKey>, owners: set<nat>, bound: nat)
    requires BucketOrdered(b, bound)
    ensures BucketOrdered(Outside(b, owners), bound)
  {
    forall i: nat
      ensures InOrder(Own(Outside(b, owners), i))
    {
      OwnOutside(b, owners, i);
      assert InOrder(Own(b, i));
    }
    OutsideRising(b, owners);
    forall k | k in Outside(b, owners)
      ensures k.ev.arrival < bound
    {
      OutsideMember(b, owners, k);
    }
  }

  lemma {:induction false} OutsideRising(b: seq<WithheldKey>, owners: set<nat>)
    requires Rising(b)
    ensures Rising(Outside(b, owners))
  {
    if b != [] {
      var before, last := b[..|b| - 1], b[|b| - 1];
      OutsideRising(before, owners);
      forall k | k in Outside(before, owners)
        ensures k.ev.arrival <= last.ev.arrival
      {
        OutsideMember(before, owners, k);
      }
    }
  }

  lemma DiscardOrdered(w: Registry, out: seq<Output>, owners: set<nat>, bound: nat)
    requires Ordered(w, out, bound)
    ensures Ordered(Discard(w, owners), out, bound)
  {
    forall c: nat
      ensures CodeOrdered(Discard(w, owners), out, bound, c)
    {
      assert CodeOrdered(w, out, bound, c);
      DiscardBucket(w, owners, c);
      OutsideOrdered(Bucket(w, c), owners, bound);
      forall k | k in Outside(Bucket(w, c), owners)
        ensures k in Bucket(w, c)
      {
        OutsideMember(Bucket(w, c), owners, k);
      }
    }
  }

  /** Outputs that are neither forwarded nor replayed do not matter. */
  lemma SilentOrdered(w: Registry, out: seq<Output>, more: seq<Output>, bound: nat)
    requires Ordered(w, out, bound) && Written(more) == []
    ensures Ordered(w, out + more, bound)
  {
    forall c: nat
      ensures CodeOrdered(w, out + more, bound, c)
    {
      assert CodeOrdered(w, out, bound, c);
      StreamAppend(out, more, c);
    }
  }

  lemma LaterBound(w: Registry, out: seq<Output>, bound: nat, later: nat)
    requires Ordered(w, out, bound) && bound <= later
    ensures Ordered(w, out, later)
  {
    forall c: nat
      ensures CodeOrdered(w, out, later, c)
    {
      assert CodeOrdered(w, out, bound, c);
    }
  }

  /** Writing something newer than all that was written, and nothing of which stays withheld. */
  lemma WriteOrdered(w: Registry, out: seq<Output>, es: seq<Event>, bound: nat, c: nat)
    requires CodeOrdered(w, out, bound, c)
    requires InOrder(OnCode(es, c))
    requires forall x, y | x in Stream(out, c) && y in OnCode(es, c) && y.IsKey() :: x.arrival < y.arrival
    requires forall y | y in OnCode(es, c) && y.IsKey() :: y.arrival < bound && c !in w
    ensures CodeOrdered(w, out + Replays(es), bound, c)
  {
    StreamAppend(out, Replays(es), c);
    WrittenReplays(es);
    var new_ := KeyPart(OnCode(es, c));
    KeyPartInOrder(OnCode(es, c));
    forall y | y in new_
      ensures y in OnCode(es, c) && y.IsKey()
    {
      KeyPartMember(OnCode(es, c), y);
    }
    InOrderConcat(Stream(out, c), new_);
  }

  // ----- One turn of the loop -----

  ghost predicate WrittenBefore(out: seq<Output>, t: nat, c: nat)
  {
    forall x | x in Stream(out, c) :: x.arrival < t
  }

  /** In the middle of an event that arrived at `t`: only combos before `n` may already withhold it. */
  ghost predicate Midway(e: Engine, t: nat, n: nat)
  {
    && Ordered(e.registry, e.out, t + 1)
    && (forall c: nat :: WrittenBefore(e.out, t, c))
    && forall c: nat, k | k in Bucket(e.registry, c) && k.owner >= n :: k.ev.arrival < t
  }

  lemma AbandonOnCode(e: Engine, t: nat, n: nat, i: nat, bound: nat, c: nat)
    requires WellKeyed(e.registry) && Midway(e, t, n) && i >= n && bound == t + 1
    ensures CodeOrdered(Abandon(e, i).registry, Abandon(e, i).out, bound, c)
    ensures WrittenBefore(Abandon(e, i).out, t, c)
  {
    hide Replay;
    var e' := Abandon(e, i);
    var es := Replay(e.registry, i);
    DiscardOrdered(e.registry, e.out, {i}, bound);
    assert CodeOrdered(e.registry, e.out, bound, c) && CodeOrdered(e'.registry, e.out, bound, c);
    assert WrittenBefore(e.out, t, c);
    ReplayIsOwnEvents(e.registry, i, c);
    forall y | y in OnCode(es, c)
      ensures WithheldKey(y, i) in Bucket(e.registry, c) && c !in e'.registry && y.arrival < t
    {
      OwnMember(Bucket(e.registry, c), i, y);
      assert WithheldKey(y, i).owner >= n;
    }
    assert InOrder(Own(Bucket(e.registry, c), i));
    hide BucketOrdered;
    WriteOrdered(e'.registry, e.out, es, bound, c);
    StreamAppend(e.out, Replays(es), c);
    WrittenReplays(es);
    forall x | x in Stream(e'.out, c)
      ensures x.arrival < t
    {
      KeyPartMember(OnCode(es, c), x);
    }
  }

  lemma AbandonMidway(e: Engine, t: nat, n: nat, i: nat)
    requires WellKeyed(e.registry) && Midway(e, t, n) && i >= n
    ensures Midway(Abandon(e, i), t, n)
  {
    var e', bound := Abandon(e, i), t + 1;
    forall c: nat
      ensures CodeOrdered(e'.registry, e'.out, bound, c)
    {
      AbandonOnCode(e, t, n, i, bound, c);
    }
    forall c: nat
      ensures WrittenBefore(e'.out, t, c)
    {
      AbandonOnCode(e, t, n, i, bound, c);
    }
    forall c: nat, k | k in Bucket(e'.registry, c) && k.owner >= n
      ensures k.ev.arrival < t
    {
      OutsideMember(Bucket(e.registry, c), {i}, k);
    }
  }

  lemma AddToBucket(b: seq<WithheldKey>, ev: Event, i: nat)
    requires BucketOrdered(b, ev.arrival + 1)
    requires forall k | k in b && k.owner >= i :: k.ev.arrival < ev.arrival
    ensures BucketOrdered(b + [WithheldKey(ev, i)], ev.arrival + 1)
  {
    var k := WithheldKey(ev, i);
    forall j: nat
      ensures InOrder(Own(b + [k], j))
    {
      OwnAppend(b, k, j);
      assert InOrder(Own(b, j));
      forall x | x in Own(b, i)
        ensures x.arrival < ev.arrival
      {
        OwnMember(b, i, x);
        assert WithheldKey(x, i).owner >= i;
      }
    }
  }

  lemma AddOrdered(w: Registry, out: seq<Output>, ev: Event, i: nat)
    requires Ordered(w, out, ev.arrival + 1)
    requires forall c: nat :: WrittenBefore(out, ev.arrival, c)
    requires forall c: nat, k | k in Bucket(w, c) && k.owner >= i :: k.ev.arrival < ev.arrival
    ensures Ordered(Added(w, ev, i), out, ev.arrival + 1)
  {
    var w', bound := Added(w, ev, i), ev.arrival + 1;
    forall c: nat
      ensures CodeOrdered(w', out, bound, c)
    {
      assert CodeOrdered(w, out, bound, c) && WrittenBefore(out, ev.arrival, c);
      if c == ev.code {
        AddToBucket(Bucket(w, c), ev, i);
      } else {
        assert Bucket(w', c) == Bucket(w, c);
      }
    }
  }

  lemma AcceptMidway(e: Engine, i: nat, step: Step, inp: Input)
    requires Midway(e, inp.ev.arrival, i)
    ensures Midway(Accept(e, i, step, inp), inp.ev.arrival, i + 1)
  {
    var e' := Accept(e, i, step, inp);
    if step.suppress {
      AddOrdered(e.registry, e.out, inp.ev, i);
    }
    forall c: nat, k | k in Bucket(e'.registry, c) && k.owner >= i + 1
      ensures k.ev.arrival < inp.ev.arrival
    {
      assert k in Bucket(e.registry, c);
    }
  }

  lemma CompleteMidway(e: Engine, i: nat, a: KeyAction, inp: Input, t: nat, n: nat)
    requires Midway(e, t, n)
    ensures Midway(Complete(e, i, a, inp), t, n)
  {
    var e' := Complete(e, i, a, inp);
    var fired := [Fired(a, inp.app, inp.at)];
    assert Written(fired) == [] by { assert fired[..0] == []; }
    DiscardOrdered(e.registry, e.out, {i}, t + 1);
    SilentOrdered(e'.registry, e.out, fired, t + 1);
    forall c: nat
      ensures WrittenBefore(e'.out, t, c)
    {
      assert WrittenBefore(e.out, t, c);
      StreamAppend(e.out, fired, c);
    }
    forall c: nat, k | k in Bucket(e'.registry, c) && k.owner >= n
      ensures k.ev.arrival < t
    {
      OutsideMember(Bucket(e.registry, c), {i}, k);
    }
  }

  lemma ComboStepMidway(e: Engine, actions: seq<KeyAction>, i: nat, inp: Input)
    requires Consistent(e, actions) && i < |actions|
    requires Midway(e, inp.ev.arrival, i)
    ensures Midway(ComboStep(e, i, actions[i], inp), inp.ev.arrival, i + 1)
  {
    var a, t := actions[i], inp.ev.arrival;
    if a.trigger.events != [] {
      var e1 := Expire(e, i, inp.now);
      AbandonMidway(e, t, i, i);
      assert Midway(e1, t, i);
      DiscardWellKeyed(e.registry, {i});
      AbandonMidway(e1, t, i, i);
      var c := e1.combos[i];
      match OutcomeOf(a, MarkOf(c), inp.ev, inp.numLock)
      case Idle =>
      case Broken =>
      case Matched =>
        AcceptMidway(e1, i, a.trigger.events[c.next], inp);
      case Completed =>
        AcceptMidway(e1, i, a.trigger.events[c.next], inp);
        CompleteMidway(Accept(e1, i, a.trigger.events[c.next], inp), i, a, inp, t, i + 1);
    }
  }

  lemma {:induction false} ComboStepsMidway(e: Engine, actions: seq<KeyAction>, n: nat, inp: Input)
    requires Consistent(e, actions) && n <= |actions|
    requires Midway(e, inp.ev.arrival, 0)
    ensures Midway(ComboSteps(e, actions, n, inp), inp.ev.arrival, n)
  {
    hide ComboStep, Midway, Consistent;
    if n > 0 {
      ComboStepsMidway(e, actions, n - 1, inp);
      ComboStepsConsistent(e, actions, n - 1, inp);
      ComboStepMidway(ComboSteps(e, actions, n - 1, inp), actions, n - 1, inp);
    }
  }

  // ----- Whole events -----

  lemma ForwardOnCode(w: Registry, out: seq<Output>, ev: Event, bound: nat, c: nat)
    requires CodeOrdered(w, out, bound, c) && WrittenBefore(out, ev.arrival, c)
    requires ev.arrival < bound && (ev.IsKey() ==> ev.code !in w)
    ensures CodeOrdered(w, out + [Forwarded(ev)], bound, c)
  {
    StreamForward(out, ev, c);
    if ev.code == c && ev.IsKey() {
      InOrderConcat(Stream(out, c), [ev]);
      assert Bucket(w, c) == [];
    }
  }

  lemma ForwardOrdered(w: Registry, out: seq<Output>, ev: Event)
    requires Ordered(w, out, ev.arrival + 1)
    requires forall c: nat :: WrittenBefore(out, ev.arrival, c)
    requires ev.IsKey() ==> ev.code !in w
    ensures Ordered(w, out + [Forwarded(ev)], ev.arrival + 1)
  {
    var bound := ev.arrival + 1;
    forall c: nat
      ensures CodeOrdered(w, out + [Forwarded(ev)], bound, c)
    {
      assert CodeOrdered(w, out, bound, c) && WrittenBefore(out, ev.arrival, c);
      ForwardOnCode(w, out, ev, bound, c);
    }
  }

  lemma StreamForward(out: seq<Output>, ev: Event, c: nat)
    ensures Stream(out + [Forwarded(ev)], c) == if ev.code == c && ev.IsKey() then Stream(out, c) + [ev] else Stream(out, c)
  {
    StreamOfOne(ev, c);
    StreamAppend(out, [Forwarded(ev)], c);
  }

  lemma StreamOfOne(ev: Event, c: nat)
    ensures Stream([Forwarded(ev)], c) == if ev.code == c && ev.IsKey() then [ev] else []
  {
    assert Written([Forwarded(ev)]) == [ev] by { assert [Forwarded(ev)][..0] == []; }
    assert OnCode([ev], c) == if ev.code == c then [ev] else [] by { assert [ev][..0] == []; }
    assert KeyPart([ev]) == if ev.IsKey() then [ev] else [] by { assert [ev][..0] == []; }
  }

  ghost predicate StateOrdered(s: Mapper, bound: nat)
  {
    Ordered(s.registry, s.out, bound)
  }

  lemma EmptyWithoutMacros(s: Mapper)
    requires Inv(s) && s.app !in s.macros
    ensures s.registry == map[]
  {
    if s.registry != map[] {
      var c :| c in s.registry;
      OwnerIsActive(EngineOf(s), c, s.registry[c][0]);
    }
  }

  lemma StartMidway(w: Registry, out: seq<Output>, combos: Combos, bound: nat, t: nat)
    requires Ordered(w, out, bound) && bound <= t
    ensures Midway(Engine(w, combos, out, false), t, 0)
  {
    LaterBound(w, out, bound, t + 1);
    forall c: nat
      ensures WrittenBefore(out, t, c)
    {
      assert CodeOrdered(w, out, bound, c);
    }
    forall c: nat, k | k in Bucket(w, c)
      ensures k.ev.arrival < t
    {
      assert CodeOrdered(w, out, bound, c);
    }
  }

  lemma FeedOrdered(s: Mapper, ev: Event, now: nat, skip: bool, bound: nat)
    requires Inv(s) && StateOrdered(s, bound) && bound <= ev.arrival
    requires skip ==> s.registry == map[]
    ensures StateOrdered(Feed(s, ev, now, skip), ev.arrival + 1)
  {
    hide Ordered, WrittenBefore, ComboSteps, WellKeyed, Shared;
    var actions, inp := ActionsOf(s.macros, s.app), InputOf(s, ev, now);
    StartMidway(s.registry, s.out, CombosOf(s.progress, s.app), bound, ev.arrival);
    if skip || s.app !in s.macros {
      if !skip {
        EmptyWithoutMacros(s);
      }
      ForwardOrdered(s.registry, s.out, ev);
    } else {
      var e := ComboSteps(EngineOf(s), actions, |actions|, inp);
      ComboStepsMidway(EngineOf(s), actions, |actions|, inp);
      if !e.caught && (ev.IsKey() ==> ev.code !in e.registry) {
        ForwardOrdered(e.registry, e.out, ev);
      }
    }
  }

  lemma ReleaseAllOrdered(s: Mapper, bound: nat)
    requires StateOrdered(s, bound)
    ensures StateOrdered(ReleaseAll(s), bound)
  {
    var s' := ReleaseAll(s);
    WrittenReleases(Ascending(s.pressed));
    DiscardOrdered(s.registry, s.out, Elements(VisitOrder(s.progress, AppOrder)), bound);
    SilentOrdered(s'.registry, s.out, Releases(Ascending(s.pressed)), bound);
  }

  lemma ContextStageOrdered(s: Mapper, ev: Event, now: nat, idle: bool, bound: nat)
    requires StateOrdered(s, bound)
    ensures StateOrdered(ContextStage(s, ev, now, idle), bound)
  {
    TrackFrame(s, ev, now);
    var s1 := Track(Emergency(s, ev, now), ev);
    var active := !s1.numLock;
    var s2 := s1.(numLock := active);
    ReleaseAllOrdered(if active then s2.(monitoring := true) else Grab(s2, idle), bound);
  }

  lemma ContextStageRests(s: Mapper, ev: Event, now: nat, idle: bool)
    requires Inv(s) && s.registry == map[]
    ensures ContextStage(s, ev, now, idle).registry == map[]
  {
    TrackFrame(s, ev, now);
  }

  lemma {:induction false} ProcessOrdered(s: Mapper, ev: Event, skip: bool, now: nat, idle: bool, bound: nat)
    requires Inv(s) && StateOrdered(s, bound) && bound <= ev.arrival
    requires skip ==> s.registry == map[]
    ensures StateOrdered(Process(s, ev, skip, now, idle), ev.arrival + 1)
    decreases if KEY_1 <= ev.code <= KEY_6 then 1 else 0
  {
    hide Inv, Ordered, Feed, ContextStage;
    var s1 := ContextStage(s, ev, now, idle);
    ContextStageInv(s, ev, now, idle);
    ContextStageOrdered(s, ev, now, idle, bound);
    if skip {
      ContextStageRests(s, ev, now, idle);
    }
    if s1.monitoring {
      LaterBound(s1.registry, s1.out, bound, ev.arrival + 1);
    } else if skip {
      FeedOrdered(s1, ev, now, skip, bound);
    } else {
      var (g, k) := DetectG(s1.gToggle, ev);
      var s2 := s1.(gToggle := g);
      InvFrame(s1, s2);
      if k > 0 {
        ProcessOrdered(s2, Virtual(ev, k), false, now, idle, bound);
      } else {
        FeedOrdered(s2, ev, now, skip, bound);
      }
    }
  }
}
