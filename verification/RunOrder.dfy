/** Event order over whole runs, and what a flush does to it. */
module RunOrder {
  import opened Collections
  import opened InputEvents
  import opened Suppression
  import opened MacroEngine
  import opened Pipeline
  import opened StateInvariant
  import opened EventOrder

  // ----- What a flush writes, bucket by bucket -----

  ghost function FlushBucket(b: seq<WithheldKey>, order: seq<nat>): seq<Event>
  {
    if order == [] then [] else
    var before, i := order[..|order| - 1], order[|order| - 1];
    FlushBucket(b, before) + EventsOf(Tail(Outside(b, Elements(before)), i))
  }

  lemma TailMember(b: seq<WithheldKey>, i: nat, k: WithheldKey)
    requires k in Tail(b, i)
    ensures k in b
  {
    OutsideBound(b, {i});
    var j :| 0 <= j < |Tail(b, i)| && Tail(b, i)[j] == k;
    assert b[j + |Outside(b, {i})|] == k;
  }

  lemma EventsOfAppend(a: seq<WithheldKey>, b: seq<WithheldKey>)
    ensures EventsOf(a + b) == EventsOf(a) + EventsOf(b)
  {
  }

  lemma {:induction false} ClaimedOnCode(w: Registry, i: nat, s: set<nat>, c: nat)
    requires WellKeyed(w)
    ensures OnCode(EventsOf(Claimed(w, i, s)), c) == if c in s then EventsOf(Tail(Bucket(w, c), i)) else []
  {
    if s != {} {
      var d := Greatest(s);
      var tail := Tail(Bucket(w, d), i);
      ClaimedOnCode(w, i, s - {d}, c);
      EventsOfAppend(Claimed(w, i, s - {d}), tail);
      OnCodeAppend(EventsOf(Claimed(w, i, s - {d})), EventsOf(tail), c);
      forall e | e in EventsOf(tail)
        ensures e.code == d
      {
        var j :| 0 <= j < |tail| && tail[j].ev == e;
        TailMember(Bucket(w, d), i, tail[j]);
      }
      if c == d {
        OnCodeAll(EventsOf(tail), c);
      } else {
        OnCodeNone(EventsOf(tail), c);
      }
    }
  }

  lemma {:induction false} FlushOnCode(w: Registry, order: seq<nat>, c: nat)
    requires WellKeyed(w)
    ensures OnCode(FlushClaims(w, order), c) == FlushBucket(Bucket(w, c), order)
  {
    if order != [] {
      var before, i := order[..|order| - 1], order[|order| - 1];
      var left := Discard(w, Elements(before));
      FlushOnCode(w, before, c);
      DiscardWellKeyed(w, Elements(before));
      DiscardBucket(w, Elements(before), c);
      ClaimedOnCode(left, i, left.Keys, c);
      OnCodeAppend(FlushClaims(w, before), EventsOf(Claimed(left, i, left.Keys)), c);
    }
  }

  lemma ElementsSnoc(order: seq<nat>)
    requires order != []
    ensures Elements(order) == Elements(order[..|order| - 1]) + {order[|order| - 1]}
  {
    assert order == order[..|order| - 1] + [order[|order| - 1]];
  }

  /** A flush writes as many events as it takes out of the bucket, though not always those. */
  lemma {:induction false} FlushCount(b: seq<WithheldKey>, order: seq<nat>)
    ensures |FlushBucket(b, order)| == |b| - |Outside(b, Elements(order))|
  {
    if order == [] {
      OutsideNothing(b);
      assert Elements(order) == {};
    } else {
      var before, i := order[..|order| - 1], order[|order| - 1];
      FlushCount(b, before);
      OutsideBound(Outside(b, Elements(before)), {i});
      OutsideOutside(b, Elements(before), {i});
      ElementsSnoc(order);
    }
  }

  /** All entries of the bucket have the same owner. */
  ghost predicate SoleOwner(b: seq<WithheldKey>)
  {
    forall j, k | j in b && k in b :: j.owner == k.owner
  }

  lemma {:induction false} OutsideUniform(b: seq<WithheldKey>, o: nat, owners: set<nat>)
    requires forall k | k in b :: k.owner == o
    ensures Outside(b, owners) == if o in owners then [] else b
  {
    if b != [] {
      assert b == b[..|b| - 1] + [b[|b| - 1]];
      OutsideUniform(b[..|b| - 1], o, owners);
    }
  }

  lemma {:induction false} FlushSoleOwner(b: seq<WithheldKey>, o: nat, order: seq<nat>)
    requires forall k | k in b :: k.owner == o
    ensures FlushBucket(b, order) == if o in Elements(order) then EventsOf(b) else []
  {
    if order != [] {
      var before, i := order[..|order| - 1], order[|order| - 1];
      ElementsSnoc(order);
      FlushSoleOwner(b, o, before);
      OutsideUniform(b, o, Elements(before));
      OutsideUniform(b, o, {i});
      OutsideUniform([], o, {i});
    }
  }

  lemma {:induction false} FlushNewest(b: seq<WithheldKey>, order: seq<nat>)
    requires FlushBucket(b, order) != []
    ensures b != [] && exists e :: e in FlushBucket(b, order) && e.arrival == b[|b| - 1].ev.arrival
  {
    var before, i := order[..|order| - 1], order[|order| - 1];
    var first, tail := FlushBucket(b, before), Tail(Outside(b, Elements(before)), i);
    assert FlushBucket(b, order) == first + EventsOf(tail);
    hide Outside, Tail, Elements;
    if first != [] {
      FlushNewest(b, before);
      hide FlushBucket;
      var e :| e in first && e.arrival == b[|b| - 1].ev.arrival;
      assert e in first + EventsOf(tail);
    } else {
      FlushCount(b, before);
      OutsideBound(b, Elements(before));
      assert Outside(b, Elements(before)) == b;
      hide FlushBucket;
      TailEnds(b, i);
      assert EventsOf(tail)[|tail| - 1] == b[|b| - 1].ev;
      assert b[|b| - 1].ev in first + EventsOf(tail);
    }
  }

  /** What a claim takes out of a bucket ends like the bucket. */
  lemma TailEnds(b: seq<WithheldKey>, i: nat)
    requires Tail(b, i) != []
    ensures b != [] && Tail(b, i)[|Tail(b, i)| - 1] == b[|b| - 1]
  {
    OutsideBound(b, {i});
  }

  /** With two owners, what the later one claims comes after the newest event of the bucket. */
  lemma {:induction false} FlushTwoOwners(b: seq<WithheldKey>, order: seq<nat>, j: WithheldKey, k: WithheldKey)
    requires Rising(b) && j in b && k in b && j.owner != k.owner
    requires j.owner in Elements(order) && k.owner in Elements(order)
    ensures !InOrder(FlushBucket(b, order))
  {
    var before, i := order[..|order| - 1], order[|order| - 1];
    ElementsSnoc(order);
    var first := FlushBucket(b, before);
    if j.owner in Elements(before) && k.owner in Elements(before) {
      FlushTwoOwners(b, before, j, k);
      var x, y :| 0 <= x < y < |first| && first[x].arrival >= first[y].arrival;
      assert FlushBucket(b, order)[x] == first[x] && FlushBucket(b, order)[y] == first[y];
    } else if i == k.owner {
      FlushLateOwner(b, before, j, k);
    } else {
      FlushLateOwner(b, before, k, j);
    }
  }

  lemma FlushLateOwner(b: seq<WithheldKey>, before: seq<nat>, early: WithheldKey, late: WithheldKey)
    requires Rising(b) && early in b && late in b
    requires early.owner in Elements(before) && late.owner !in Elements(before)
    ensures !InOrder(FlushBucket(b, before) + EventsOf(Tail(Outside(b, Elements(before)), late.owner)))
  {
    var tail := Tail(Outside(b, Elements(before)), late.owner);
    assert FlushBucket(b, before) != [] && tail != [] by { LateTail(b, before, early, late); }
    FlushNewest(b, before);
    assert tail[0] in b by {
      TailMember(Outside(b, Elements(before)), late.owner, tail[0]);
      OutsideMember(b, Elements(before), tail[0]);
    }
    NotAfterNewest(FlushBucket(b, before), EventsOf(tail), b);
  }

  lemma NotAfterNewest(first: seq<Event>, rest: seq<Event>, b: seq<WithheldKey>)
    requires Rising(b) && b != [] && rest != []
    requires exists e :: e in first && e.arrival == b[|b| - 1].ev.arrival
    requires exists k :: k in b && k.ev == rest[0]
    ensures !InOrder(first + rest)
  {
    var e :| e in first && e.arrival == b[|b| - 1].ev.arrival;
    var x :| 0 <= x < |first| && first[x] == e;
    assert (first + rest)[x] == e && (first + rest)[|first|] == rest[0];
  }

  lemma LateTail(b: seq<WithheldKey>, before: seq<nat>, early: WithheldKey, late: WithheldKey)
    requires early in b && late in b
    requires early.owner in Elements(before) && late.owner !in Elements(before)
    ensures FlushBucket(b, before) != []
    ensures Tail(Outside(b, Elements(before)), late.owner) != []
  {
    var left := Outside(b, Elements(before));
    FlushCount(b, before);
    OutsideBound(b, Elements(before));
    OutsideMember(b, Elements(before), early);
    OutsideMember(b, Elements(before), late);
    OutsideBound(left, {late.owner});
    OutsideMember(left, {late.owner}, late);
  }

  /** A flush replays without looking whether a code is still blocked. On a code it writes the
      withheld events once each and in order exactly when no two combos withhold that code. */
  lemma FlushKeepsOrderIff(s: Mapper, bound: nat, c: nat)
    requires Inv(s) && StateOrdered(s, bound)
    ensures InOrder(OnCode(FlushClaims(s.registry, VisitOrder(s.progress, AppOrder)), c))
       <==> SoleOwner(Bucket(s.registry, c))
  {
    var b, order := Bucket(s.registry, c), VisitOrder(s.progress, AppOrder);
    assert CodeOrdered(s.registry, s.out, bound, c);
    FlushOnCode(s.registry, order, c);
    forall k | k in b
      ensures k.owner in Elements(order)
    {
      OwnerIsActive(EngineOf(s), c, k);
      AllVisited(s.progress, s.app, k.owner);
    }
    if SoleOwner(b) {
      if b == [] {
        FlushSoleOwner(b, 0, order);
      } else {
        var o := b[0].owner;
        FlushSoleOwner(b, o, order);
        OutsideUniform(b, o, {o});
        OwnAll(b, o);
        assert InOrder(Own(b, o));
      }
    } else {
      var j, k :| j in b && k in b && j.owner != k.owner;
      FlushTwoOwners(b, order, j, k);
    }
  }

  lemma FirstStepWithheld(e: Engine, i: nat, a: KeyAction, inp: Input)
    requires Combo(e.combos, i) == Untouched && !inp.numLock && |a.trigger.events| == 2
    requires a.trigger.events[0].suppress && Matches(a.trigger.events[0], inp.ev)
    ensures var e' := ComboStep(e, i, a, inp);
            e'.registry == Added(e.registry, inp.ev, i) && e'.out == e.out && e'.caught
            && forall j: nat | j != i :: Combo(e'.combos, j) == Combo(e.combos, j)
  {
  }

  lemma BothWithhold(s: Mapper, a: KeyAction, ev: Event)
    requires Initial(s) && !s.numLock && s.app in s.macros && s.macros[s.app] == [a, a] && |a.trigger.events| == 2
    requires a.trigger.events[0].suppress && Matches(a.trigger.events[0], ev)
    ensures var s1 := Feed(s, ev, 0, false);
            s1.out == [] && Bucket(s1.registry, ev.code) == [WithheldKey(ev, 0), WithheldKey(ev, 1)]
  {
    var e0, inp := EngineOf(s), InputOf(s, ev, 0);
    assert ComboSteps(e0, [a, a], 0, inp) == e0;
    FirstStepWithheld(e0, 0, a, inp);
    FirstStepWithheld(ComboSteps(e0, [a, a], 1, inp), 1, a, inp);
    hide ComboStep, Matches;
    assert ComboSteps(e0, [a, a], 2, inp) == ComboStep(ComboStep(e0, 0, a, inp), 1, a, inp);
  }

  lemma FlushEmpties(s: Mapper, c: nat)
    requires Inv(s)
    ensures var order := VisitOrder(s.progress, AppOrder);
            WellKeyed(s.registry) && |OnCode(FlushClaims(s.registry, order), c)| == |Bucket(s.registry, c)|
  {
    var order := VisitOrder(s.progress, AppOrder);
    NothingLeft(s);
    DiscardBucket(s.registry, Elements(order), c);
    FlushOnCode(s.registry, order, c);
    FlushCount(Bucket(s.registry, c), order);
    hide FlushClaims, VisitOrder, Outside, FlushBucket, OnCode;
  }

  /** Twice the same event in the bucket: a flush of all owners writes it twice. */
  lemma FlushTwice(s: Mapper, ev: Event)
    requires Inv(s) && Bucket(s.registry, ev.code) == [WithheldKey(ev, 0), WithheldKey(ev, 1)]
    ensures OnCode(FlushClaims(s.registry, VisitOrder(s.progress, AppOrder)), ev.code) == [ev, ev]
  {
    hide Inv, WellKeyed, FlushClaims, VisitOrder, OnCode;
    var es := OnCode(FlushClaims(s.registry, VisitOrder(s.progress, AppOrder)), ev.code);
    FlushEmpties(s, ev.code);
    FlushWithheld(s, ev.code);
    forall e | e in es
      ensures e == ev
    {
      var k :| k in Bucket(s.registry, ev.code) && k.ev == e;
    }
    assert es[0] in es && es[1] in es;
  }

  lemma KeyTwice(ev: Event)
    requires ev.IsKey()
    ensures KeyPart([ev, ev]) == [ev, ev]
  {
    assert [ev, ev][..1] == [ev] && [ev][..0] == [] && KeyPart([ev]) == [] + [ev];
  }

  /** Two combos of the active app withhold the same press: a flush then writes that press twice. */
  lemma FlushCanDuplicate(s: Mapper, a: KeyAction, ev: Event)
    requires Initial(s) && !s.numLock && s.app in s.macros && s.macros[s.app] == [a, a] && |a.trigger.events| == 2
    requires a.trigger.events[0].suppress && ev.IsKey() && Matches(a.trigger.events[0], ev)
    ensures Stream(Flush(Feed(s, ev, 0, false)).out, ev.code) == [ev, ev]
  {
    AtRestInv(s);
    hide Feed, FlushClaims, Matches, Inv, Initial, OnCode, KeyPart;
    var s1 := Feed(s, ev, 0, false);
    var es := FlushClaims(s1.registry, VisitOrder(s1.progress, AppOrder));
    BothWithhold(s, a, ev);
    FeedInv(s, ev, 0, false);
    FlushTwice(s1, ev);
    WrittenReplays(es);
    assert [] + Replays(es) == Replays(es);
    KeyTwice(ev);
  }

  // ----- Runs -----

  ghost predicate NoSharedCodes(w: Registry)
  {
    forall c: nat :: SoleOwner(Bucket(w, c))
  }

  lemma FlushOrdered(s: Mapper, bound: nat)
    requires Inv(s) && StateOrdered(s, bound) && NoSharedCodes(s.registry)
    ensures StateOrdered(Flush(s), bound)
  {
    var s' := Flush(s);
    var es := FlushClaims(s.registry, VisitOrder(s.progress, AppOrder));
    FlushRests(s);
    DiscardOrdered(s.registry, s.out, Elements(VisitOrder(s.progress, AppOrder)), bound);
    forall c: nat
      ensures CodeOrdered(s'.registry, s'.out, bound, c)
    {
      assert CodeOrdered(s'.registry, s.out, bound, c) && CodeOrdered(s.registry, s.out, bound, c);
      assert SoleOwner(Bucket(s.registry, c));
      FlushKeepsOrderIff(s, bound, c);
      FlushWithheld(s, c);
      WriteOrdered(s'.registry, s.out, es, bound, c);
    }
  }

  lemma {:induction false} FlushBucketMember(b: seq<WithheldKey>, order: seq<nat>, e: Event)
    requires e in FlushBucket(b, order)
    ensures exists k :: k in b && k.ev == e
  {
    var before, i := order[..|order| - 1], order[|order| - 1];
    if e in FlushBucket(b, before) {
      FlushBucketMember(b, before, e);
    } else {
      var left := Outside(b, Elements(before));
      var j :| 0 <= j < |Tail(left, i)| && Tail(left, i)[j].ev == e;
      TailMember(left, i, Tail(left, i)[j]);
      OutsideMember(b, Elements(before), Tail(left, i)[j]);
    }
  }

  lemma FlushWithheld(s: Mapper, c: nat)
    requires WellKeyed(s.registry)
    ensures forall e | e in OnCode(FlushClaims(s.registry, VisitOrder(s.progress, AppOrder)), c) ::
              exists k :: k in Bucket(s.registry, c) && k.ev == e
  {
    var order := VisitOrder(s.progress, AppOrder);
    FlushOnCode(s.registry, order, c);
    forall e | e in OnCode(FlushClaims(s.registry, order), c)
      ensures exists k :: k in Bucket(s.registry, c) && k.ev == e
    {
      FlushBucketMember(Bucket(s.registry, c), order, e);
    }
  }

  /** The events read from the devices during a run, in reading order. */
  ghost function EventsRead(ops: seq<Op>): seq<Event>
  {
    if ops == [] then [] else EventsRead(ops[..|ops| - 1]) + EventsOfOp(ops[|ops| - 1])
  }

  function EventsOfReadings(rs: seq<Reading>): seq<Event>
  {
    if rs == [] then [] else EventsOfReadings(rs[..|rs| - 1]) + [rs[|rs| - 1].ev]
  }

  /** No resync happens while two combos withhold the same code. */
  ghost predicate NoSharedResync(s: Mapper, ops: seq<Op>)
  {
    ops == [] ||
    (var before := ops[..|ops| - 1];
     NoSharedResync(s, before) && (ops[|ops| - 1].Resync? ==> NoSharedCodes(Run(s, before).registry)))
  }

  ghost predicate Below(es: seq<Event>, bound: nat)
  {
    forall e | e in es :: e.arrival < bound
  }

  ghost function NextArrival(es: seq<Event>): (bound: nat)
    ensures InOrder(es) ==> Below(es, bound)
  {
    if es == [] then 0 else es[|es| - 1].arrival + 1
  }

  lemma InOrderPrefix(a: seq<Event>, b: seq<Event>)
    requires InOrder(a + b)
    ensures InOrder(a) && InOrder(b)
    ensures b != [] ==> NextArrival(a) <= b[0].arrival
  {
    assert forall j | 0 <= j < |a| :: a[j] == (a + b)[j];
    assert forall j | 0 <= j < |b| :: b[j] == (a + b)[|a| + j];
  }

  lemma {:induction false} SyncedOrdered(s: Mapper, rs: seq<Reading>, bound: nat)
    requires Inv(s) && StateOrdered(s, bound) && s.registry == map[]
    requires InOrder(EventsOfReadings(rs)) && (rs != [] ==> bound <= EventsOfReadings(rs)[0].arrival)
    ensures Inv(Synced(s, rs)) && Synced(s, rs).registry == map[]
    ensures StateOrdered(Synced(s, rs), if rs == [] then bound else NextArrival(EventsOfReadings(rs)))
  {
    hide Inv, StateOrdered, Process;
    if rs != [] {
      var before, r := rs[..|rs| - 1], rs[|rs| - 1];
      var s1 := Synced(s, before);
      InOrderPrefix(EventsOfReadings(before), [r.ev]);
      if before != [] {
        assert EventsOfReadings(rs)[0] == EventsOfReadings(before)[0];
      }
      SyncedOrdered(s, before, bound);
      ProcessOrdered(s1, r.ev, true, r.now, r.idle, if before == [] then bound else NextArrival(EventsOfReadings(before)));
      ProcessInv(s1, r.ev, true, r.now, r.idle);
      SkippedKeepsRegistry(s1, r.ev, r.now, r.idle);
    }
  }

  lemma SkippedKeepsRegistry(s: Mapper, ev: Event, now: nat, idle: bool)
    requires Inv(s) && s.registry == map[]
    ensures Process(s, ev, true, now, idle).registry == map[]
  {
    ContextStageRests(s, ev, now, idle);
  }

  /** The events one operation reads. */
  function EventsOfOp(op: Op): seq<Event>
  {
    match op
    case Read(r) => [r.ev]
    case Resync(rs) => EventsOfReadings(rs)
    case _ => []
  }

  lemma ResyncOrdered(s: Mapper, rs: seq<Reading>, before: seq<Event>)
    requires Inv(s) && StateOrdered(s, NextArrival(before)) && NoSharedCodes(s.registry)
    requires InOrder(before + EventsOfReadings(rs))
    ensures StateOrdered(Synced(Flush(s), rs), NextArrival(before + EventsOfReadings(rs)))
  {
    hide Inv, StateOrdered, NoSharedCodes, Flush;
    InOrderPrefix(before, EventsOfReadings(rs));
    FlushOrdered(s, NextArrival(before));
    assert Flush(s).registry == map[] && Inv(Flush(s)) by {
      FlushRests(s);
      AtRestInv(Flush(s));
    }
    SyncedOrdered(Flush(s), rs, NextArrival(before));
    if rs == [] {
      assert before + EventsOfReadings(rs) == before;
    }
  }

  lemma PerformOrdered(s: Mapper, op: Op, before: seq<Event>)
    requires Inv(s) && StateOrdered(s, NextArrival(before))
    requires op.Resync? ==> NoSharedCodes(s.registry)
    requires InOrder(before + EventsOfOp(op))
    ensures StateOrdered(Perform(s, op), NextArrival(before + EventsOfOp(op)))
  {
    hide Inv, StateOrdered, NoSharedCodes, Process, Flush;
    match op
    case Read(r) =>
      InOrderPrefix(before, [r.ev]);
      ProcessOrdered(s, r.ev, false, r.now, r.idle, NextArrival(before));
    case Resync(rs) => ResyncOrdered(s, rs, before);
    case Focus(app, url, title) =>
      assert before + [] == before;
      SetContextOrdered(s, app, url, title, NextArrival(before));
    case Regrab(idle) =>
      assert before + [] == before;
      OrderedFrame(s, Grab(s, idle), NextArrival(before));
    case LoadMacros(overlay) =>
      assert before + [] == before;
      OrderedFrame(s, Reload(s, overlay), NextArrival(before));
  }

  lemma OrderedFrame(s: Mapper, s': Mapper, bound: nat)
    requires StateOrdered(s, bound) && s'.registry == s.registry && s'.out == s.out
    ensures StateOrdered(s', bound)
  {
  }

  lemma SetContextOrdered(s: Mapper, app: AppType, url: string, title: string, bound: nat)
    requires StateOrdered(s, bound)
    ensures StateOrdered(SetContext(s, app, url, title), bound)
  {
    ReleaseAllOrdered(s.(app := app, url := url, title := title), bound);
  }

  /** Over every run, the key events forwarded or replayed on a code are in strict arrival order:
      none is duplicated and none overtakes another, however many combos withhold them. */
  lemma {:induction false} KeyEventsKeepTheirOrder(s: Mapper, ops: seq<Op>)
    requires Initial(s) && Admissible(s, ops) && NoSharedResync(s, ops)
    requires InOrder(EventsRead(ops))
    ensures StateOrdered(Run(s, ops), NextArrival(EventsRead(ops)))
    ensures forall c: nat :: InOrder(Stream(Run(s, ops).out, c))
  {
    var s' := Run(s, ops);
    if ops == [] {
      forall c: nat
        ensures CodeOrdered(s.registry, s.out, 0, c)
      {
      }
    } else {
      var before, op := ops[..|ops| - 1], ops[|ops| - 1];
      InOrderPrefix(EventsRead(before), EventsOfOp(op));
      KeyEventsKeepTheirOrder(s, before);
      ReachableInv(s, before);
      PerformOrdered(Run(s, before), op, EventsRead(before));
    }
    forall c: nat
      ensures InOrder(Stream(s'.out, c))
    {
      assert CodeOrdered(s'.registry, s'.out, NextArrival(EventsRead(ops)), c);
    }
  }
}
