/** Input events, macro triggers and the outputs of the input mapper. */
module InputEvents {

  // Event types and codes of the Linux input subsystem (linux/input-event-codes.h).
  const EV_KEY: nat := 1
  const KEY_1: nat := 2
  const KEY_6: nat := 7
  const KEY_LEFTCTRL: nat := 29
  const KEY_LEFTSHIFT: nat := 42
  const KEY_NUMLOCK: nat := 69
  const KEY_SCROLLLOCK: nat := 70
  const KEY_PAUSE: nat := 119
  const BTN_MISC: nat := 0x100
  const KEY_OK: nat := 0x160
  const VIRTUAL_BASE: nat := 1000

  // Times are nanoseconds of one monotone clock.
  const SECOND: nat := 1_000_000_000
  const COMBO_TIMEOUT: nat := 2 * SECOND

  /** One input event. `arrival` numbers the events in the order in which they are read from
      the devices; no branch of the mapper looks at it. */
  datatype Event = Event(typ: nat, code: nat, value: int, arrival: nat)
  {
    predicate IsKey() { typ == EV_KEY }
  }

  datatype AppType = OTHER | TERMINAL | CHROME | CODE

  datatype Step = Step(typ: nat, code: nat, value: int, suppress: bool, ignoreRepeat: bool)

  /** `hasSuppressedKeys` is a cached hint: it takes part in comparing triggers and in nothing else. */
  datatype KeyTrigger = KeyTrigger(events: seq<Step>, hasSuppressedKeys: bool, noiseBreaks: bool)

  datatype KeyAction = KeyAction(trigger: KeyTrigger, keySequence: seq<(nat, int)>)

  type Macros = map<AppType, seq<KeyAction>>

  /** What the mapper writes, in order. An action that fires is one opaque entry: its own
      key sequence or handler is not part of the forwarded/replayed stream. `at` is the
      position in the input history of the event that completed it. */
  datatype Output =
    | Forwarded(ev: Event)
    | Replayed(ev: Event)
    | Released(code: nat)
    | Fired(action: KeyAction, app: AppType, at: nat)

  /** What happened to the macro stage, in order: an event handed to it while `app` was active,
      an event that bypassed it during a device resync, or a reset of all combo progress. */
  datatype Item =
    | Given(app: AppType, ev: Event, now: nat, numLock: bool)
    | Bypassed(ev: Event)
    | Cleared

  datatype PipelineResult = CONTINUE | CONSUMED | DROP

  /** The events of `es` with code `c`, in order. */
  function OnCode(es: seq<Event>, c: nat): seq<Event>
  {
    if es == [] then [] else
    var rest, last := OnCode(es[..|es| - 1], c), es[|es| - 1];
    if last.code == c then rest + [last] else rest
  }

  lemma {:induction false} OnCodeAppend(a: seq<Event>, b: seq<Event>, c: nat)
    ensures OnCode(a + b, c) == OnCode(a, c) + OnCode(b, c)
  {
    if b == [] {
      assert a + b == a;
    } else {
      OnCodeAppend(a, b[..|b| - 1], c);
      assert (a + b)[..|a + b| - 1] == a + b[..|b| - 1];
    }
  }

  lemma {:induction false} OnCodeMember(es: seq<Event>, c: nat, e: Event)
    ensures e in OnCode(es, c) <==> e in es && e.code == c
  {
    if es != [] {
      OnCodeMember(es[..|es| - 1], c, e);
      assert es == es[..|es| - 1] + [es[|es| - 1]];
    }
  }

  lemma {:induction false} OnCodeAll(es: seq<Event>, c: nat)
    requires forall e | e in es :: e.code == c
    ensures OnCode(es, c) == es
  {
    if es != [] {
      OnCodeAll(es[..|es| - 1], c);
      assert es == es[..|es| - 1] + [es[|es| - 1]];
    }
  }

  lemma {:induction false} OnCodeNone(es: seq<Event>, c: nat)
    requires forall e | e in es :: e.code != c
    ensures OnCode(es, c) == []
  {
    if es != [] {
      OnCodeNone(es[..|es| - 1], c);
      assert es == es[..|es| - 1] + [es[|es| - 1]];
    }
  }

  /** Arrivals strictly increase: no duplicate and no reordering. */
  ghost predicate InOrder(es: seq<Event>)
  {
    forall j, k :: 0 <= j < k < |es| ==> es[j].arrival < es[k].arrival
  }
}
