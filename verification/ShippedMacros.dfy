/** The macros the daemon ships with: defaults, and overrides per application. */
module ShippedMacros {
  import opened Collections
  import opened InputEvents

  /** Where the first action with the trigger stands, or the length of the list. */
  function Position(actions: seq<KeyAction>, t: KeyTrigger): (k: nat)
    ensures k <= |actions| && (k < |actions| ==> actions[k].trigger == t)
    ensures forall j | 0 <= j < k :: actions[j].trigger != t
  {
    if actions == [] || actions[0].trigger == t then 0 else
      assert forall j | 0 < j < |actions| :: actions[j] == actions[1..][j - 1];
      1 + Position(actions[1..], t)
  }

  /** Overwrite the first action with the same trigger, or append. */
  function Override(actions: seq<KeyAction>, a: KeyAction): seq<KeyAction>
  {
    var k := Position(actions, a.trigger);
    if k < |actions| then actions[k := a] else actions + [a]
  }

  function ApplyOverrides(defaults: seq<KeyAction>, specific: seq<KeyAction>): seq<KeyAction>
  {
    if specific == [] then defaults
    else Override(ApplyOverrides(defaults, specific[..|specific| - 1]), specific[|specific| - 1])
  }

  /** The action a trigger stands for: the first one in the list. */
  function ActionFor(actions: seq<KeyAction>, t: KeyTrigger): Option<KeyAction>
  {
    var k := Position(actions, t);
    if k < |actions| then Some(actions[k]) else None
  }

  function LastFor(actions: seq<KeyAction>, t: KeyTrigger): Option<KeyAction>
  {
    if actions == [] then None
    else if actions[|actions| - 1].trigger == t then Some(actions[|actions| - 1])
    else LastFor(actions[..|actions| - 1], t)
  }

  lemma PositionIs(actions: seq<KeyAction>, t: KeyTrigger, k: nat)
    requires k <= |actions| && (k < |actions| ==> actions[k].trigger == t)
    requires forall j | 0 <= j < k :: actions[j].trigger != t
    ensures Position(actions, t) == k
  {
  }

  lemma OverrideFor(actions: seq<KeyAction>, a: KeyAction, t: KeyTrigger)
    ensures ActionFor(Override(actions, a), t) == if t == a.trigger then Some(a) else ActionFor(actions, t)
  {
    var k, j, r := Position(actions, a.trigger), Position(actions, t), Override(actions, a);
    if t == a.trigger {
      PositionIs(r, t, k);
    } else if j < |actions| {
      PositionIs(r, t, j);
    } else {
      PositionIs(r, t, |r|);
    }
  }

  /** A trigger stands for the last app-specific action with that trigger, and for the default one
      only if there is none. */
  lemma {:induction false} OverridesWin(defaults: seq<KeyAction>, specific: seq<KeyAction>, t: KeyTrigger)
    ensures ActionFor(ApplyOverrides(defaults, specific), t)
         == if LastFor(specific, t).Some? then LastFor(specific, t) else ActionFor(defaults, t)
  {
    if specific != [] {
      var before := specific[..|specific| - 1];
      OverridesWin(defaults, before, t);
      OverrideFor(ApplyOverrides(defaults, before), specific[|specific| - 1], t);
    }
  }

  ghost predicate DistinctTriggers(actions: seq<KeyAction>)
  {
    forall j, k | 0 <= j < k < |actions| :: actions[j].trigger != actions[k].trigger
  }

  lemma OverrideKeepsPlaces(actions: seq<KeyAction>, a: KeyAction)
    ensures var r := Override(actions, a);
            && |actions| <= |r| && (forall k | 0 <= k < |actions| :: r[k].trigger == actions[k].trigger)
            && (DistinctTriggers(actions) ==> DistinctTriggers(r))
            && (forall x | x in r :: x in actions || x == a)
  {
  }

  /** The list begins with the default triggers in their places; behind them come only app-specific
      actions; and no trigger is listed twice if no default one was. */
  lemma {:induction false} OverridesKeepPlaces(defaults: seq<KeyAction>, specific: seq<KeyAction>)
    ensures var r := ApplyOverrides(defaults, specific);
            && |defaults| <= |r| && (forall k | 0 <= k < |defaults| :: r[k].trigger == defaults[k].trigger)
            && (DistinctTriggers(defaults) ==> DistinctTriggers(r))
            && (forall x | x in r :: x in defaults || x in specific)
  {
    hide Override, DistinctTriggers;
    if specific != [] {
      var before, last := specific[..|specific| - 1], specific[|specific| - 1];
      OverridesKeepPlaces(defaults, before);
      OverrideKeepsPlaces(ApplyOverrides(defaults, before), last);
      assert specific == before + [last];
    }
  }

  method BuildMacros(defaults: seq<KeyAction>, specific: seq<KeyAction>) returns (final: seq<KeyAction>)
    ensures final == ApplyOverrides(defaults, specific)
  {
    final := defaults;
    for i := 0 to |specific|
      invariant final == ApplyOverrides(defaults, specific[..i])
    {
      assert specific[..i + 1][..i] == specific[..i];
      var k := 0;
      while k < |final| && final[k].trigger != specific[i].trigger
        invariant k <= |final|
        invariant forall j | 0 <= j < k :: final[j].trigger != specific[i].trigger
      {
        k := k + 1;
      }
      PositionIs(final, specific[i].trigger, k);
      if k < |final| {
        final := final[k := specific[i]];
      } else {
        final := final + [specific[i]];
      }
    }
    assert specific[..|specific|] == specific;
  }

  // ----- The shipped tables -----

  const BTN_LEFT: nat := 0x110
  const BTN_FORWARD: nat := 0x115

  function Press(code: nat, withhold: bool, ignoreRepeat: bool): Step
  {
    Step(EV_KEY, code, 1, withhold, ignoreRepeat)
  }

  function OnPress(code: nat, output: seq<(nat, int)>): KeyAction
  {
    KeyAction(KeyTrigger([Press(code, false, false)], false, true), output)
  }

  // Forward button -> Enter; G6 -> Ctrl+C
  const Defaults: seq<KeyAction> :=
    [OnPress(BTN_FORWARD, [(28, 1), (28, 0)]),
     OnPress(1006, [(29, 1), (46, 1), (46, 0), (29, 0)])]

  // G1 -> Ctrl+Alt+C; G2 -> "git s" and Enter; Ctrl and left click -> 7
  const Terminal: seq<KeyAction> :=
    [OnPress(1001, [(29, 1), (56, 1), (46, 1), (46, 0), (56, 0), (29, 0)]),
     OnPress(1002, [(34, 1), (34, 0), (23, 1), (23, 0), (20, 1), (20, 0), (57, 1), (57, 0), (31, 1), (31, 0), (28, 1), (28, 0)]),
     KeyAction(KeyTrigger([Press(KEY_LEFTCTRL, false, false), Press(BTN_LEFT, true, false)], true, false),
               [(29, 0), (8, 1), (8, 0), (29, 1)])]

  // G2 -> End; forward button -> A
  const Code: seq<KeyAction> :=
    [OnPress(1002, [(107, 1), (107, 0)]),
     OnPress(BTN_FORWARD, [(30, 1), (30, 0)])]

  // Ctrl+V -> a handler of its own
  const Chrome: seq<KeyAction> :=
    [KeyAction(KeyTrigger([Press(KEY_LEFTCTRL, false, true), Press(47, true, false)], false, true), [])]

  const Shipped: Macros :=
    map[TERMINAL := ApplyOverrides(Defaults, Terminal), CODE := ApplyOverrides(Defaults, Code),
        CHROME := ApplyOverrides(Defaults, Chrome), OTHER := Defaults]

  lemma {:induction false} AllAppended(defaults: seq<KeyAction>, specific: seq<KeyAction>)
    requires DistinctTriggers(defaults + specific)
    ensures ApplyOverrides(defaults, specific) == defaults + specific
  {
    if specific == [] {
      assert defaults + specific == defaults;
    } else {
      var before, last := specific[..|specific| - 1], specific[|specific| - 1];
      var r := defaults + before;
      assert defaults + specific == r + [last];
      assert forall k | 0 <= k < |r| :: (r + [last])[k] == r[k] && (r + [last])[k].trigger != (r + [last])[|r|].trigger;
      assert DistinctTriggers(r);
      AllAppended(defaults, before);
      PositionIs(r, last.trigger, |r|);
    }
  }

  /** A key or button of its own for every trigger of a single press. */
  lemma OnPressesDiffer(c: nat, d: nat, x: seq<(nat, int)>, y: seq<(nat, int)>)
    requires c != d
    ensures OnPress(c, x).trigger != OnPress(d, y).trigger
  {
    assert OnPress(c, x).trigger.events[0].code == c && OnPress(d, y).trigger.events[0].code == d;
  }

  lemma LongerDiffer(a: KeyAction, b: KeyAction)
    requires |a.trigger.events| != |b.trigger.events|
    ensures a.trigger != b.trigger
  {
  }

  /** What the shipped tables come to: terminals and Chrome add their own macros behind the default ones,
      and Code writes A where the forward button writes Enter by default. */
  lemma ShippedAre()
    ensures OTHER in Shipped && Shipped[OTHER] == Defaults
    ensures TERMINAL in Shipped && Shipped[TERMINAL] == Defaults + Terminal
    ensures CHROME in Shipped && Shipped[CHROME] == Defaults + Chrome
    ensures CODE in Shipped && Shipped[CODE] == [Code[1], Defaults[1], Code[0]]
  {
    assert DistinctTriggers(Defaults + Terminal) by { TerminalsDistinct(); }
    AllAppended(Defaults, Terminal);
    assert DistinctTriggers(Defaults + Chrome) by { ChromesDistinct(); }
    AllAppended(Defaults, Chrome);
    CodeIs();
    hide ApplyOverrides, DistinctTriggers;
  }

  lemma TerminalsDistinct()
    ensures DistinctTriggers(Defaults + Terminal)
  {
    var all := Defaults + Terminal;
    forall j, k | 0 <= j < k < |all|
      ensures all[j].trigger != all[k].trigger
    {
      if k < 4 {
        OnPressesDiffer(all[j].trigger.events[0].code, all[k].trigger.events[0].code, all[j].keySequence, all[k].keySequence);
      } else {
        LongerDiffer(all[j], all[k]);
      }
    }
  }

  lemma ChromesDistinct()
    ensures DistinctTriggers(Defaults + Chrome)
  {
    var all := Defaults + Chrome;
    forall j, k | 0 <= j < k < |all|
      ensures all[j].trigger != all[k].trigger
    {
      if k < 2 {
        OnPressesDiffer(all[j].trigger.events[0].code, all[k].trigger.events[0].code, all[j].keySequence, all[k].keySequence);
      } else {
        LongerDiffer(all[j], all[k]);
      }
    }
  }

  lemma CodeIs()
    ensures ApplyOverrides(Defaults, Code) == [Code[1], Defaults[1], Code[0]]
  {
    var one := Defaults + [Code[0]];
    OnPressesDiffer(BTN_FORWARD, 1002, Defaults[0].keySequence, Code[0].keySequence);
    OnPressesDiffer(1006, 1002, Defaults[1].keySequence, Code[0].keySequence);
    PositionIs(Defaults, Code[0].trigger, 2);
    assert Code[..1] == [Code[0]] && Code[..1][..0] == [];
    assert ApplyOverrides(Defaults, Code[..1]) == one;
    assert one[0].trigger == Code[1].trigger;
    PositionIs(one, Code[1].trigger, 0);
    assert one[0 := Code[1]] == [Code[1], Defaults[1], Code[0]];
  }

  ghost predicate PressesOnly(actions: seq<KeyAction>)
  {
    forall a, step | a in actions && step in a.trigger.events :: step.typ == EV_KEY && step.value == 1
  }

  lemma {:induction false} OverridesPressesOnly(defaults: seq<KeyAction>, specific: seq<KeyAction>)
    requires PressesOnly(defaults) && PressesOnly(specific)
    ensures PressesOnly(ApplyOverrides(defaults, specific))
  {
    if specific != [] {
      OverridesPressesOnly(defaults, specific[..|specific| - 1]);
    }
  }

  /** All the shipped macros wait for presses only. */
  lemma ShippedExpectPresses()
    ensures forall a | a in Shipped :: PressesOnly(Shipped[a])
  {
    DefaultsExpectPresses();
    hide PressesOnly, Override;
    OverridesPressesOnly(Defaults, Terminal) by { TerminalExpectsPresses(); }
    OverridesPressesOnly(Defaults, Code) by { CodeExpectsPresses(); }
    OverridesPressesOnly(Defaults, Chrome) by { ChromeExpectsPresses(); }
    hide ApplyOverrides;
  }

  lemma DefaultsExpectPresses()
    ensures PressesOnly(Defaults)
  {
  }

  lemma TerminalExpectsPresses()
    ensures PressesOnly(Terminal)
  {
  }

  lemma CodeExpectsPresses()
    ensures PressesOnly(Code)
  {
  }

  lemma ChromeExpectsPresses()
    ensures PressesOnly(Chrome)
  {
  }
}
