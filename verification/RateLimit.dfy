/** The rate limiter in front of simulated input events. */
module RateLimit {

  const EV_REL: nat := 2
  const EV_ABS: nat := 3

  const MILLISECOND: nat := 1_000_000
  const WINDOW: nat := 10 * MILLISECOND
  const MAX_EVENTS: nat := 50

  /** A request with its arrival time in nanoseconds. */
  datatype Request = Request(typ: nat, now: nat)
  {
    predicate IsMotion() { typ == EV_ABS || typ == EV_REL }
  }

  datatype Limiter = Limiter(lastEventTime: nat, eventCount: nat)

  /** One call: the new counters, and whether the event is passed on. Elapsed time is counted in
      whole milliseconds. */
  function Step(l: Limiter, r: Request): (Limiter, bool)
    requires l.lastEventTime <= r.now
  {
    if (r.now - l.lastEventTime) / MILLISECOND < 10 then
      (l.(eventCount := l.eventCount + 1), !(l.eventCount + 1 > MAX_EVENTS && r.IsMotion()))
    else (Limiter(r.now, 1), true)
  }

  /** The counters after the requests, and the requests passed on. */
  function Run(l: Limiter, rs: seq<Request>): (Limiter, seq<Request>)
    requires Valid(l, rs)
    ensures Run(l, rs).0.lastEventTime <= if rs == [] then l.lastEventTime else rs[|rs| - 1].now
  {
    if rs == [] then (l, []) else
    var before, r := rs[..|rs| - 1], rs[|rs| - 1];
    var (l1, passed) := Run(l, before);
    var (l2, ok) := Step(l1, r);
    (l2, if ok then passed + [r] else passed)
  }

  predicate Valid(l: Limiter, rs: seq<Request>)
  {
    (forall j, k | 0 <= j < k < |rs| :: rs[j].now <= rs[k].now) && forall k | 0 <= k < |rs| :: l.lastEventTime <= rs[k].now
  }

  /** How many motion events with times in from..to were passed on. */
  function Motions(passed: seq<Request>, from: int, to: int): nat
  {
    if passed == [] then 0 else
    var r := passed[|passed| - 1];
    Motions(passed[..|passed| - 1], from, to) + if r.IsMotion() && from <= r.now < to then 1 else 0
  }

  function Others(rs: seq<Request>): seq<Request>
  {
    if rs == [] then [] else
    var r := rs[|rs| - 1];
    if r.IsMotion() then Others(rs[..|rs| - 1]) else Others(rs[..|rs| - 1]) + [r]
  }

  /** Every event that is no motion is passed on, in order. */
  lemma {:induction false} OthersAlwaysPass(l: Limiter, rs: seq<Request>)
    requires Valid(l, rs)
    ensures Others(Run(l, rs).1) == Others(rs)
  {
    if rs != [] {
      var before, r := rs[..|rs| - 1], rs[|rs| - 1];
      OthersAlwaysPass(l, before);
      assert (Run(l, before).1 + [r])[..|Run(l, before).1|] == Run(l, before).1;
    }
  }

  lemma MotionsSnoc(passed: seq<Request>, r: Request, from: int, to: int)
    ensures Motions(passed + [r], from, to) == Motions(passed, from, to) + if r.IsMotion() && from <= r.now < to then 1 else 0
  {
    assert (passed + [r])[..|passed|] == passed;
  }

  /** Bounds on the motion events passed on in the ten milliseconds after `from`: sharper ones if
      the window that is open began before `from`, or before those ten milliseconds end. */
  ghost predicate Bounded(l: Limiter, passed: seq<Request>, from: int)
  {
    var inWindow := Motions(passed, l.lastEventTime, l.lastEventTime + WINDOW);
    && inWindow <= MAX_EVENTS && inWindow <= l.eventCount
    && (l.lastEventTime <= from ==> Motions(passed, from, from + WINDOW) <= inWindow)
    && (l.lastEventTime < from + WINDOW ==> Motions(passed, from, from + WINDOW) <= MAX_EVENTS + inWindow)
    && Motions(passed, from, from + WINDOW) <= 2 * MAX_EVENTS
  }

  ghost predicate Earlier(passed: seq<Request>, bound: int)
  {
    forall r | r in passed :: r.now < bound
  }

  lemma {:induction false} NoneLater(passed: seq<Request>, from: int, to: int)
    requires Earlier(passed, from)
    ensures Motions(passed, from, to) == 0
  {
    if passed != [] {
      NoneLater(passed[..|passed| - 1], from, to);
    }
  }

  lemma StepBounded(l: Limiter, passed: seq<Request>, r: Request, from: int)
    requires l.lastEventTime <= r.now
    requires Earlier(passed, l.lastEventTime + WINDOW)
    requires Bounded(l, passed, from)
    ensures var (l', ok) := Step(l, r);
            var passed' := if ok then passed + [r] else passed;
            Earlier(passed', l'.lastEventTime + WINDOW) && Bounded(l', passed', from)
  {
    var (l', ok) := Step(l, r);
    MotionsSnoc(passed, r, l'.lastEventTime, l'.lastEventTime + WINDOW);
    MotionsSnoc(passed, r, from, from + WINDOW);
    if l'.lastEventTime != l.lastEventTime {
      NoneLater(passed, l'.lastEventTime, l'.lastEventTime + WINDOW);
      if l'.lastEventTime <= from {
        NoneLater(passed, from, from + WINDOW);
      }
    }
  }

  lemma {:induction false} RunBounded(rs: seq<Request>, from: int)
    requires Valid(Limiter(0, 0), rs)
    ensures var (l, passed) := Run(Limiter(0, 0), rs);
            Earlier(passed, l.lastEventTime + WINDOW) && Bounded(l, passed, from)
  {
    if rs != [] {
      var before, r := rs[..|rs| - 1], rs[|rs| - 1];
      var (l, passed) := Run(Limiter(0, 0), before);
      RunBounded(before, from);
      StepBounded(l, passed, r, from);
    }
  }

  /** Whatever the arrival times, at most 50 motion events are passed on within the window that is
      open, and at most 100 within any 10 milliseconds. */
  lemma AtMost100In10ms(rs: seq<Request>, from: int)
    requires Valid(Limiter(0, 0), rs)
    ensures var (l, passed) := Run(Limiter(0, 0), rs);
            && Motions(passed, l.lastEventTime, l.lastEventTime + 10_000_000) <= 50
            && Motions(passed, from, from + 10_000_000) <= 100
  {
    RunBounded(rs, from);
  }

  // ----- Exactly which events are dropped -----

  /** The window that request `p` falls into: which request was the first in it, and when it began. A
      request ten milliseconds after the beginning of a window begins the next. */
  function WindowOf(rs: seq<Request>, p: nat): (w: (nat, nat))
    requires p < |rs|
    ensures w.0 <= p
  {
    var (first, began) := if p == 0 then (0, 0) else WindowOf(rs, p - 1);
    if rs[p].now - began >= 10_000_000 then (p, rs[p].now) else (first, began)
  }

  /** A motion event that comes fifty requests or more after the first one of its window. */
  predicate Dropped(rs: seq<Request>, p: nat)
    requires p < |rs|
  {
    (rs[p].typ == 2 || rs[p].typ == 3) && p - WindowOf(rs, p).0 >= 50
  }

  lemma {:induction false} WindowPrefix(rs: seq<Request>, n: nat, p: nat)
    requires p < n <= |rs|
    ensures WindowOf(rs[..n], p) == WindowOf(rs, p)
  {
    if p > 0 {
      WindowPrefix(rs, n, p - 1);
    }
  }

  /** The counters are those of the window of the latest request. */
  lemma {:induction false} CountersAre(rs: seq<Request>)
    requires Valid(Limiter(0, 0), rs)
    ensures rs != [] ==> var (first, began) := WindowOf(rs, |rs| - 1);
                         Run(Limiter(0, 0), rs).0 == Limiter(began, |rs| - first)
  {
    if |rs| > 1 {
      CountersAre(rs[..|rs| - 1]);
      WindowPrefix(rs, |rs| - 1, |rs| - 2);
    }
  }

  /** Over every run, a request is dropped exactly if it is motion and at least fifty requests of any
      kind came before it in its window, the one that began the window included. */
  lemma {:induction false} DroppedIff(rs: seq<Request>)
    requires Valid(Limiter(0, 0), rs) && rs != []
    ensures var before, p := rs[..|rs| - 1], |rs| - 1;
            Run(Limiter(0, 0), rs).1 == Run(Limiter(0, 0), before).1 + if Dropped(rs, p) then [] else [rs[p]]
  {
    var before, p := rs[..|rs| - 1], |rs| - 1;
    CountersAre(before);
    if p > 0 {
      WindowPrefix(rs, p, p - 1);
    }
  }

  /** The first fifty requests of every window are passed on. */
  lemma FirstFiftyPass(rs: seq<Request>)
    requires Valid(Limiter(0, 0), rs) && rs != [] && |rs| - WindowOf(rs, |rs| - 1).0 <= 50
    ensures Run(Limiter(0, 0), rs).1 == Run(Limiter(0, 0), rs[..|rs| - 1]).1 + [rs[|rs| - 1]]
  {
    DroppedIff(rs);
  }

  // ----- As it runs -----

  class RawEventGate {
    var lastEventTime: nat
    var eventCount: nat
    var passed: seq<Request>

    constructor ()
      ensures Limiter(lastEventTime, eventCount) == Limiter(0, 0) && passed == []
    {
      lastEventTime, eventCount, passed := 0, 0, [];
    }

    method HandleSimulateInput(r: Request)
      requires lastEventTime <= r.now
      modifies this
      ensures var (l, ok) := Step(old(Limiter(lastEventTime, eventCount)), r);
              Limiter(lastEventTime, eventCount) == l && passed == if ok then old(passed) + [r] else old(passed)
    {
      var elapsed := (r.now - lastEventTime) / MILLISECOND;
      if elapsed < 10 {
        eventCount := eventCount + 1;
        if eventCount > 50 {
          if r.typ == EV_ABS || r.typ == EV_REL {
            return;
          }
        }
      } else {
        eventCount := 1;
        lastEventTime := r.now;
      }
      passed := passed + [r];
    }
  }
}
