/** The G-key sequence: Ctrl, Shift, Ctrl, Shift, digit. */
module GKeys {
  import opened InputEvents
  import opened Pipeline

  predicate CtrlPress(ev: Event)
  {
    ev.IsKey() && ev.code == KEY_LEFTCTRL && ev.value == 1
  }

  predicate ShiftPress(ev: Event)
  {
    ev.IsKey() && ev.code == KEY_LEFTSHIFT && ev.value == 1
  }

  predicate Digit(ev: Event, k: nat)
  {
    ev.IsKey() && 1 <= k <= 6 && ev.code == KEY_1 + k - 1
  }

  /** Everything but non-key events and the releases and repeats of Ctrl and Shift. */
  predicate Relevant(ev: Event)
  {
    ev.IsKey() && ((ev.code == KEY_LEFTCTRL || ev.code == KEY_LEFTSHIFT) ==> ev.value == 1)
  }

  function RelevantPart(es: seq<Event>): seq<Event>
  {
    if es == [] then [] else
    var rest, last := RelevantPart(es[..|es| - 1]), es[|es| - 1];
    if Relevant(last) then rest + [last] else rest
  }

  /** The automaton's state after the events `es`, from the initial state 1. */
  function StateAfter(es: seq<Event>): (g: nat)
    ensures 1 <= g <= 5
  {
    if es == [] then 1 else DetectG(StateAfter(es[..|es| - 1]), es[|es| - 1]).0
  }

  /** The G-keys reported while the events `es` pass by. */
  function Detections(es: seq<Event>): seq<nat>
  {
    if es == [] then [] else
    var k := DetectG(StateAfter(es[..|es| - 1]), es[|es| - 1]).1;
    if k > 0 then Detections(es[..|es| - 1]) + [k] else Detections(es[..|es| - 1])
  }

  /** The last four relevant events are Ctrl, Shift, Ctrl, Shift presses. */
  predicate EndsInPrefix(rs: seq<Event>)
  {
    && |rs| >= 4
    && CtrlPress(rs[|rs| - 4]) && ShiftPress(rs[|rs| - 3])
    && CtrlPress(rs[|rs| - 2]) && ShiftPress(rs[|rs| - 1])
  }

  lemma {:induction false} IrrelevantIgnored(es: seq<Event>)
    ensures StateAfter(es) == StateAfter(RelevantPart(es))
    ensures Detections(es) == Detections(RelevantPart(es))
  {
    if es != [] {
      var before, last := es[..|es| - 1], es[|es| - 1];
      IrrelevantIgnored(before);
      if Relevant(last) {
        var rs := RelevantPart(es);
        assert rs[..|rs| - 1] == RelevantPart(before);
      }
    }
  }

  lemma {:induction false} RelevantPartMember(es: seq<Event>, e: Event)
    requires e in RelevantPart(es)
    ensures Relevant(e)
  {
    if e in RelevantPart(es[..|es| - 1]) {
      RelevantPartMember(es[..|es| - 1], e);
    }
  }

  lemma LastPress(rs: seq<Event>)
    requires rs != [] && Relevant(rs[|rs| - 1])
    ensures var g, last := StateAfter(rs[..|rs| - 1]), rs[|rs| - 1];
            && (StateAfter(rs) == 5 <==> ShiftPress(last) && g == 4)
            && (StateAfter(rs) == 4 <==> CtrlPress(last) && g == 3)
            && (StateAfter(rs) == 3 <==> ShiftPress(last) && g == 2)
            && (StateAfter(rs) == 2 <==> CtrlPress(last) && g == 1)
  {
  }

  /** State 5 is reached exactly by the four presses, begun in state 1. */
  lemma ReadyIff(rs: seq<Event>)
    requires forall e | e in rs :: Relevant(e)
    ensures StateAfter(rs) == 5 <==> EndsInPrefix(rs) && StateAfter(rs[..|rs| - 4]) == 1
  {
    hide DetectG;
    var n := |rs|;
    if n > 0 { LastPress(rs); }
    if n > 1 { LastPress(rs[..n - 1]); assert rs[..n - 1][..n - 2] == rs[..n - 2]; }
    if n > 2 { LastPress(rs[..n - 2]); assert rs[..n - 2][..n - 3] == rs[..n - 3]; }
    if n > 3 { LastPress(rs[..n - 3]); assert rs[..n - 3][..n - 4] == rs[..n - 4]; }
  }

  /** G-key k is reported for an event exactly when the event is key k and the relevant events
      before it end in Ctrl, Shift, Ctrl, Shift presses that began in state 1. */
  lemma DetectedIff(es: seq<Event>, ev: Event, k: nat)
    requires k > 0
    ensures DetectG(StateAfter(es), ev).1 == k
       <==> Digit(ev, k) && EndsInPrefix(RelevantPart(es))
            && StateAfter(RelevantPart(es)[..|RelevantPart(es)| - 4]) == 1
  {
    hide StateAfter, RelevantPart, EndsInPrefix, Relevant;
    IrrelevantIgnored(es);
    forall e | e in RelevantPart(es)
      ensures Relevant(e)
    {
      RelevantPartMember(es, e);
    }
    ReadyIff(RelevantPart(es));
  }

  /** From state 1 the sequence is reported exactly once, whatever irrelevant events are mixed in. */
  lemma SequenceDetectedOnce(es: seq<Event>, k: nat)
    requires var rs := RelevantPart(es); |rs| == 5 && EndsInPrefix(rs[..4]) && Digit(rs[4], k)
    ensures Detections(es) == [k] && StateAfter(es) == 1
  {
    var rs := RelevantPart(es);
    IrrelevantIgnored(es);
    FourPresses(rs[..4]);
    hide RelevantPart;
    assert rs[..5] == rs && rs[..5][..4] == rs[..4];
  }

  lemma FourPresses(rs: seq<Event>)
    requires |rs| == 4 && EndsInPrefix(rs)
    ensures Detections(rs) == [] && StateAfter(rs) == 5
  {
    assert CtrlPress(rs[0]) && ShiftPress(rs[1]) && CtrlPress(rs[2]) && ShiftPress(rs[3]);
    assert rs[..1][..0] == [] && rs[..2][..1] == rs[..1] && rs[..3][..2] == rs[..2] && rs[..4] == rs && rs[..4][..3] == rs[..3];
    assert Detections([]) == [] && StateAfter([]) == 1;
    hide Detections, StateAfter;
    PressStep(rs[..1]);
    PressStep(rs[..2]);
    PressStep(rs[..3]);
    PressStep(rs[..4]);
  }

  lemma PressStep(rs: seq<Event>)
    requires rs != [] && (CtrlPress(rs[|rs| - 1]) || ShiftPress(rs[|rs| - 1]))
    ensures Detections(rs) == Detections(rs[..|rs| - 1])
    ensures StateAfter(rs) == DetectG(StateAfter(rs[..|rs| - 1]), rs[|rs| - 1]).0
  {
  }

  /** A doubled first press is enough to miss the sequence: a wrong press resets the automaton
      without counting as a new beginning. */
  lemma StutterIsMissed(ctrl: Event, shift: Event, digit: Event)
    requires CtrlPress(ctrl) && ShiftPress(shift) && Digit(digit, 1)
    ensures EndsInPrefix(RelevantPart([ctrl, ctrl, shift, ctrl, shift]))
    ensures DetectG(StateAfter([ctrl, ctrl, shift, ctrl, shift]), digit).1 == 0
  {
    var es := [ctrl, ctrl, shift, ctrl, shift];
    assert es[..1][..0] == [];
    PressStep(es[..1]);
    assert es[..2][..1] == es[..1];
    PressStep(es[..2]);
    assert es[..3][..2] == es[..2];
    PressStep(es[..3]);
    assert es[..4][..3] == es[..3];
    PressStep(es[..4]);
    PressStep(es);
    AllRelevant(es);
  }

  lemma {:induction false} AllRelevant(es: seq<Event>)
    requires forall e | e in es :: Relevant(e)
    ensures RelevantPart(es) == es
  {
    if es != [] {
      AllRelevant(es[..|es| - 1]);
      assert es == es[..|es| - 1] + [es[|es| - 1]];
    }
  }

  /** The virtual event of a detected G-key goes straight to the macros: the pipeline nests once. */
  lemma VirtualIsNotDetected(s: Mapper, ev: Event, k: nat, now: nat, idle: bool)
    requires DetectG(s.gToggle, ev).1 == k > 0
    ensures var v, s1 := Virtual(ev, k), s.(gToggle := DetectG(s.gToggle, ev).0);
            var s2 := ContextStage(s1, v, now, idle);
            Process(s1, v, false, now, idle) == if s2.monitoring then s2 else Feed(s2, v, now, false)
  {
    var v, s1 := Virtual(ev, k), s.(gToggle := DetectG(s.gToggle, ev).0);
    assert s1.gToggle == 1 && DetectG(1, v) == (1, 0);
    var s2 := ContextStage(s1, v, now, idle);
    assert s2.(gToggle := 1) == s2;
  }
}
