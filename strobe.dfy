/**
 * The "Flash lights" action (hue:flash-lights).
 *
 * One payload is built and then mutated across flashes. Each flash picks its
 * colour, sends the off batch (the payload with `bri` 0), sleeps
 * `offDuration`, sends the on batch (the payload itself) and sleeps
 * `onDuration`. Colour resolution and the outcome of every batch are
 * inputs: `resolve` stands for the host's colour lookup followed by the xy
 * conversion, and `batchOk(n)` tells whether the n-th batch of the run
 * resolves (a batch of no requests always resolves).
 */
module Strobe {
  import opened Wrappers
  import opened References
  import opened BridgeRequests
  import Hue

  datatype FlashSettings = FlashSettings(
    lights: seq<string>,
    onDuration: int,
    offDuration: int,
    flashes: int,
    changeColor: bool,
    useSingleColor: bool,
    color: Color,
    colors: seq<Color>,
    brightness: real,
    useEndColor: bool,
    endColor: Color,
    setDuration: bool,
    duration: real)

  /** What the run did, in order: batches of requests (and whether each resolved) and sleeps. */
  datatype Event = Batch(requests: seq<Request>, ok: bool) | Sleep(ms: int)

  datatype Run = Run(result: RunResult, trace: seq<Event>)

  function Prepend(events: seq<Event>, r: Run): Run
  {
    Run(r.result, events + r.trace)
  }

  /** The payload before the first flash: brightness always, transition time when asked for. */
  function InitialPayload(s: FlashSettings): Payload
  {
    Payload(None, None, Some(Brightness(s.brightness)), if s.setDuration then Some(TransitionTime(s.duration)) else None)
  }

  lemma {:induction false} MulAtLeast(d: int, b: int)
    requires b > 0 && d >= 1
    ensures d * b >= b
    decreases d
  {
    if d > 1 {
      MulAtLeast(d - 1, b);
      assert d * b == (d - 1) * b + b;
    }
  }

  /** Taking the modulus away once does not change the remainder. */
  lemma ModSub(a: int, b: int)
    requires b > 0
    ensures (a - b) % b == a % b
  {
    var q, r := a / b, a % b;
    var q', r' := (a - b) / b, (a - b) % b;
    assert a == q * b + r;
    assert a - b == q' * b + r';
    assert (q' + 1) * b == q' * b + b;
    var d := q - q' - 1;
    assert d * b == q * b - (q' + 1) * b;
    assert d * b == r' - r;
    if d >= 1 {
      MulAtLeast(d, b);
    } else if d <= -1 {
      MulAtLeast(-d, b);
    }
    assert d == 0;
  }

  /**
   * The index into a non-empty colour list for flash `i`: `i` itself when it
   * is in range, otherwise `i` with the list length subtracted until it is.
   */
  method ColorIndex(i: nat, len: nat) returns (index: nat)
    requires len > 0
    ensures index < len
    ensures index == i % len
  {
    if i < len {
      index := i;
    } else {
      index := i;
      while index >= len
        invariant index % len == i % len
        decreases index
      {
        ModSub(index, len);
        index := index - len;
      }
    }
  }

  /**
   * The payload after flash `i` has picked its colour, or None when a colour
   * it needs does not resolve (the run then ends with `undefined`).
   */
  function FlashColor(s: FlashSettings, resolve: Color -> Option<XY>, i: nat, p: Payload): Option<Payload>
  {
    if !s.changeColor then Some(p)
    else
      var picked :=
        if s.useSingleColor then
          if resolve(s.color).None? then None else Some(p.(xy := resolve(s.color)))
        else if |s.colors| != 0 then
          var c := resolve(s.colors[i % |s.colors|]);
          if c.None? then None else Some(p.(xy := c))
        else Some(p);
      if picked.None? then None
      else if s.useEndColor && i == s.flashes - 1 then
        if resolve(s.endColor).None? then None else Some(picked.value.(xy := resolve(s.endColor)))
      else picked
  }

  /**
   * The colour step of flash `i` on the shared payload: the single colour,
   * or the cycled colour of a non-empty list, then the end colour on the
   * last flash. None when a colour does not resolve.
   */
  method PickColor(s: FlashSettings, resolve: Color -> Option<XY>, i: nat, p: Payload) returns (q: Option<Payload>)
    ensures q == FlashColor(s, resolve, i, p)
  {
    var payload := p;
    if s.changeColor {
      if s.useSingleColor {
        var color := resolve(s.color);
        if color.None? {
          return None;
        }
        payload := payload.(xy := color);
      } else if |s.colors| != 0 {
        var index := ColorIndex(i, |s.colors|);
        var color := resolve(s.colors[index]);
        if color.None? {
          return None;
        }
        payload := payload.(xy := color);
      }
      if s.useEndColor && i == s.flashes - 1 {
        var color := resolve(s.endColor);
        if color.None? {
          return None;
        }
        payload := payload.(xy := color);
      }
    }
    q := Some(payload);
  }

  /** How one flash ends: the run stops with a result, or continues with the next payload. */
  datatype Step = Stop(result: RunResult, events: seq<Event>) | Continue(events: seq<Event>, next: Payload)

  /** Flash `i` on payload `p`, with `n` batches already sent. */
  function FlashStep(session: Hue.Session, s: FlashSettings, resolve: Color -> Option<XY>,
                     batchOk: nat -> bool, i: nat, p: Payload, n: nat): Step
  {
    match FlashColor(s, resolve, i, p)
    case None => Stop(Undefined, [])
    case Some(q) =>
      var offs := Requests(session, s.lights, Off(q));
      if offs != [] && !batchOk(n) then Stop(Returned(false), [Batch(offs, false)])
      else
        var ons := Requests(session, s.lights, q);
        if ons == [] then Stop(Returned(false), [Batch(offs, true), Sleep(s.offDuration)])
        else if !batchOk(n + 1) then
          Stop(Returned(false), [Batch(offs, true), Sleep(s.offDuration), Batch(ons, false)])
        else Continue([Batch(offs, true), Sleep(s.offDuration), Batch(ons, true), Sleep(s.onDuration)], q)
  }

  /** The run from flash `i` on, with payload `p` and `n` batches already sent. */
  function FlashFrom(session: Hue.Session, s: FlashSettings, resolve: Color -> Option<XY>,
                     batchOk: nat -> bool, i: nat, p: Payload, n: nat): Run
    decreases s.flashes - i
  {
    if i >= s.flashes then Run(Undefined, [])
    else
      match FlashStep(session, s, resolve, batchOk, i, p, n)
      case Stop(result, events) => Run(result, events)
      case Continue(events, q) => Prepend(events, FlashFrom(session, s, resolve, batchOk, i + 1, q, n + 2))
  }

  /** The whole run. */
  function FlashSpec(session: Hue.Session, s: FlashSettings, resolve: Color -> Option<XY>, batchOk: nat -> bool): Run
  {
    FlashFrom(session, s, resolve, batchOk, 0, InitialPayload(s), 0)
  }

  /**
   * One pass of the loop body for flash `i`: colour step, off batch, off
   * sleep, on batch, on sleep.
   */
  method FlashOnce(session: Hue.Session, s: FlashSettings, resolve: Color -> Option<XY>, batchOk: nat -> bool,
                   i: nat, p: Payload, n: nat)
    returns (step: Step)
    ensures step == FlashStep(session, s, resolve, batchOk, i, p, n)
  {
    var picked := PickColor(s, resolve, i, p);
    if picked.None? {
      return Stop(Undefined, []);
    }
    var payload := picked.value;

    var offs := Requests(session, s.lights, Off(payload));
    if offs != [] && !batchOk(n) {
      return Stop(Returned(false), [Batch(offs, false)]);
    }
    var events := [Batch(offs, true), Sleep(s.offDuration)];

    var ons := Requests(session, s.lights, payload);
    if ons == [] {
      return Stop(Returned(false), events);
    }
    if !batchOk(n + 1) {
      return Stop(Returned(false), events + [Batch(ons, false)]);
    }
    events := events + [Batch(ons, true), Sleep(s.onDuration)];
    step := Continue(events, payload);
  }

  /** A flash that goes through is followed by the rest of the run. */
  lemma FlashFromContinues(session: Hue.Session, s: FlashSettings, resolve: Color -> Option<XY>,
                           batchOk: nat -> bool, i: nat, p: Payload, n: nat)
    requires i < s.flashes && FlashStep(session, s, resolve, batchOk, i, p, n).Continue?
    ensures var step := FlashStep(session, s, resolve, batchOk, i, p, n);
      FlashFrom(session, s, resolve, batchOk, i, p, n)
        == Prepend(step.events, FlashFrom(session, s, resolve, batchOk, i + 1, step.next, n + 2))
  {
  }

  lemma PrependTwice(a: seq<Event>, b: seq<Event>, r: Run)
    ensures Prepend(a, Prepend(b, r)) == Prepend(a + b, r)
  {
    assert a + (b + r.trace) == (a + b) + r.trace;
  }

  /** The action's `run`: the flash loop over one shared payload. */
  method Flash(hue: Hue.EspressoHue, s: FlashSettings, resolve: Color -> Option<XY>, batchOk: nat -> bool)
    returns (result: RunResult, trace: seq<Event>)
    ensures Run(result, trace) == FlashSpec(hue.View(), s, resolve, batchOk)
  {
    var session := hue.View();
    var payload := Payload(None, None, None, None);
    if s.setDuration {
      payload := payload.(transitiontime := Some(TransitionTime(s.duration)));
    }
    payload := payload.(bri := Some(Brightness(s.brightness)));
    trace := [];
    var i: nat := 0;
    var n: nat := 0;
    while i < s.flashes
      invariant n == 2 * i
      invariant FlashSpec(session, s, resolve, batchOk) == Prepend(trace, FlashFrom(session, s, resolve, batchOk, i, payload, n))
      decreases s.flashes - i
    {
      var step := FlashOnce(session, s, resolve, batchOk, i, payload, n);
      if step.Stop? {
        assert FlashFrom(session, s, resolve, batchOk, i, payload, n) == Run(step.result, step.events);
        trace := trace + step.events;
        result := step.result;
        return;
      }
      ghost var rest := FlashFrom(session, s, resolve, batchOk, i + 1, step.next, n + 2);
      FlashFromContinues(session, s, resolve, batchOk, i, payload, n);
      PrependTwice(trace, step.events, rest);
      trace := trace + step.events;
      payload := step.next;
      i, n := i + 1, n + 2;
    }
    result := Undefined;
  }

  /**
   * The colour flash `k` shows when every named colour resolves: the end colour on
   * the last flash when one is set, else the single colour, else entry
   * `k mod len` of a non-empty list; no colour when colours are not changed
   * or the list is empty.
   */
  function XYAt(s: FlashSettings, resolve: Color -> Option<XY>, k: nat): Option<XY>
  {
    if !s.changeColor then None
    else if s.useEndColor && k == s.flashes - 1 then resolve(s.endColor)
    else if s.useSingleColor then resolve(s.color)
    else if |s.colors| != 0 then resolve(s.colors[k % |s.colors|])
    else None
  }

  /** The on payload of flash `k` when every named colour resolves. */
  function OnPayload(s: FlashSettings, resolve: Color -> Option<XY>, k: nat): Payload
  {
    InitialPayload(s).(xy := XYAt(s, resolve, k))
  }

  /** The four events of a flash that goes through with on payload `q`. */
  function FlashEvents(session: Hue.Session, s: FlashSettings, q: Payload): seq<Event>
  {
    [Batch(Requests(session, s.lights, Off(q)), true), Sleep(s.offDuration),
     Batch(Requests(session, s.lights, q), true), Sleep(s.onDuration)]
  }

  /**
   * Every colour the settings name resolves: the single colour or each
   * colour of the list, and the end colour when it is used. Other colour
   * values may fail to resolve.
   */
  predicate ColoursResolve(s: FlashSettings, resolve: Color -> Option<XY>)
  {
    s.changeColor ==>
      && (s.useSingleColor ==> resolve(s.color).Some?)
      && (!s.useSingleColor ==> forall k :: 0 <= k < |s.colors| ==> resolve(s.colors[k]).Some?)
      && (s.useEndColor ==> resolve(s.endColor).Some?)
  }

  /** With every named colour resolving, the shared payload of flash `i` carries exactly `XYAt(i)`. */
  lemma FlashColorResolved(s: FlashSettings, resolve: Color -> Option<XY>, i: nat, p: Payload)
    requires ColoursResolve(s, resolve)
    requires i < s.flashes
    requires p == InitialPayload(s).(xy := if i == 0 then None else XYAt(s, resolve, i - 1))
    ensures FlashColor(s, resolve, i, p) == Some(OnPayload(s, resolve, i))
  {
  }

  /** Behind four leading events, the `m`-th group of four is the `m`-th group of the rest. */
  lemma QuadShift(a: seq<Event>, b: seq<Event>, m: nat)
    requires |a| == 4 && 4 * m + 4 <= |b|
    ensures (a + b)[4 * (m + 1)..4 * (m + 1) + 4] == b[4 * m..4 * m + 4]
  {
  }

  /** A flash whose colours resolve, with a session, a target and both batches resolving, goes through. */
  lemma FlashStepSucceeds(session: Hue.Session, s: FlashSettings, resolve: Color -> Option<XY>,
                          batchOk: nat -> bool, i: nat, p: Payload, n: nat)
    requires session.Connected() && Targets(s.lights) != []
    requires ColoursResolve(s, resolve)
    requires batchOk(n) && batchOk(n + 1)
    requires i < s.flashes
    requires p == InitialPayload(s).(xy := if i == 0 then None else XYAt(s, resolve, i - 1))
    ensures FlashStep(session, s, resolve, batchOk, i, p, n)
      == Continue(FlashEvents(session, s, OnPayload(s, resolve, i)), OnPayload(s, resolve, i))
  {
    FlashColorResolved(s, resolve, i, p);
    RequestsEmptyIff(session, s.lights, OnPayload(s, resolve, i));
  }

  /**
   * The run `r` from flash `i` is the flashes `i..flashes-1` in order, four
   * events each, each with its history-free on payload, and ends with
   * `undefined`.
   */
  predicate AllFlashesFrom(session: Hue.Session, s: FlashSettings, resolve: Color -> Option<XY>, i: nat, r: Run)
  {
    && r.result == Undefined
    && |r.trace| == 4 * (s.flashes - i)
    && forall k :: i <= k < s.flashes ==>
         r.trace[4 * (k - i)..4 * (k - i) + 4] == FlashEvents(session, s, OnPayload(s, resolve, k))
  }

  /** A flash that goes through, followed by the remaining flashes, makes the flashes from `i`. */
  lemma AllFlashesPrepend(session: Hue.Session, s: FlashSettings, resolve: Color -> Option<XY>, i: nat, rest: Run)
    requires i < s.flashes && AllFlashesFrom(session, s, resolve, i + 1, rest)
    ensures AllFlashesFrom(session, s, resolve, i, Prepend(FlashEvents(session, s, OnPayload(s, resolve, i)), rest))
  {
    var events := FlashEvents(session, s, OnPayload(s, resolve, i));
    var here := Prepend(events, rest);
    forall k | i < k < s.flashes
      ensures here.trace[4 * (k - i)..4 * (k - i) + 4] == FlashEvents(session, s, OnPayload(s, resolve, k))
    {
      QuadShift(events, rest.trace, k - i - 1);
    }
  }

  /**
   * When the session is connected, some reference is accepted, every named
   * colour resolves and every batch succeeds, the run from flash `i` is the
   * remaining flashes in order.
   */
  lemma {:induction false} FlashAllSucceedFrom(session: Hue.Session, s: FlashSettings, resolve: Color -> Option<XY>,
                                              batchOk: nat -> bool, i: nat, p: Payload, n: nat)
    requires session.Connected() && Targets(s.lights) != []
    requires ColoursResolve(s, resolve)
    requires forall m :: batchOk(m)
    requires i <= s.flashes
    requires p == InitialPayload(s).(xy := if i == 0 then None else XYAt(s, resolve, i - 1))
    ensures AllFlashesFrom(session, s, resolve, i, FlashFrom(session, s, resolve, batchOk, i, p, n))
    decreases s.flashes - i
  {
    if i < s.flashes {
      FlashStepSucceeds(session, s, resolve, batchOk, i, p, n);
      var q := OnPayload(s, resolve, i);
      FlashAllSucceedFrom(session, s, resolve, batchOk, i + 1, q, n + 2);
      AllFlashesPrepend(session, s, resolve, i, FlashFrom(session, s, resolve, batchOk, i + 1, q, n + 2));
    }
  }

  /**
   * The happy path of the whole run: `flashes` off batches and `flashes` on
   * batches in strict off, sleep, on, sleep order, only the off batches with
   * `bri` 0, and no return value.
   */
  lemma FlashAllSucceed(session: Hue.Session, s: FlashSettings, resolve: Color -> Option<XY>, batchOk: nat -> bool)
    requires session.Connected() && Targets(s.lights) != []
    requires ColoursResolve(s, resolve)
    requires forall m :: batchOk(m)
    requires s.flashes >= 0
    ensures FlashSpec(session, s, resolve, batchOk).result == Undefined
    ensures |FlashSpec(session, s, resolve, batchOk).trace| == 4 * s.flashes
    ensures forall k :: 0 <= k < s.flashes ==>
      FlashSpec(session, s, resolve, batchOk).trace[4 * k..4 * k + 4] == FlashEvents(session, s, OnPayload(s, resolve, k))
  {
    FlashAllSucceedFrom(session, s, resolve, batchOk, 0, InitialPayload(s), 0);
  }

  /** No flashes: no request and no sleep. */
  lemma NoFlashes(session: Hue.Session, s: FlashSettings, resolve: Color -> Option<XY>, batchOk: nat -> bool)
    requires s.flashes <= 0
    ensures FlashSpec(session, s, resolve, batchOk) == Run(Undefined, [])
  {
  }

  /**
   * A disconnected session: the empty off batch is tolerated, the off sleep
   * happens, and the empty on batch ends the run with `false`.
   */
  lemma FlashDisconnected(session: Hue.Session, s: FlashSettings, resolve: Color -> Option<XY>, batchOk: nat -> bool)
    requires !session.Connected() && s.flashes > 0
    requires FlashColor(s, resolve, 0, InitialPayload(s)).Some?
    ensures FlashSpec(session, s, resolve, batchOk) == Run(Returned(false), [Batch([], true), Sleep(s.offDuration)])
  {
  }

  /** A colour that does not resolve ends the run with `undefined` before that flash sends anything. */
  lemma UnresolvedColourStops(session: Hue.Session, s: FlashSettings, resolve: Color -> Option<XY>,
                              batchOk: nat -> bool, i: nat, p: Payload, n: nat)
    requires i < s.flashes && FlashColor(s, resolve, i, p).None?
    ensures FlashFrom(session, s, resolve, batchOk, i, p, n) == Run(Undefined, [])
  {
  }

  /**
   * What the shared payload keeps from the settings between flashes: `on`
   * is never set, `bri` is the configured brightness, and `transitiontime`
   * is set exactly when a duration is.
   */
  predicate KeepsSettings(s: FlashSettings, p: Payload)
  {
    && p.on.None?
    && p.bri == Some(Brightness(s.brightness))
    && p.transitiontime == (if s.setDuration then Some(TransitionTime(s.duration)) else None)
  }

  /** A body the run sends: the shared payload (on batches) or its off variant (off batches). */
  predicate CarriesSettings(s: FlashSettings, b: Payload)
  {
    KeepsSettings(s, b) || (KeepsSettings(s, b.(bri := Some(Brightness(s.brightness)))) && b.bri == Some(0.0))
  }

  /** Every body of every batch among `events` carries the settings. */
  predicate BatchesCarry(s: FlashSettings, events: seq<Event>)
  {
    forall j, k :: 0 <= j < |events| && events[j].Batch? && 0 <= k < |events[j].requests| ==>
      CarriesSettings(s, events[j].requests[k].body)
  }

  lemma BatchesCarryAppend(s: FlashSettings, a: seq<Event>, b: seq<Event>)
    requires BatchesCarry(s, a) && BatchesCarry(s, b)
    ensures BatchesCarry(s, a + b)
  {
    forall j, k | 0 <= j < |a + b| && (a + b)[j].Batch? && 0 <= k < |(a + b)[j].requests|
      ensures CarriesSettings(s, (a + b)[j].requests[k].body)
    {
      if j >= |a| {
        assert (a + b)[j] == b[j - |a|];
      } else {
        assert (a + b)[j] == a[j];
      }
    }
  }

  /** One flash sends only bodies that carry the settings, and hands on a payload that keeps them. */
  lemma FlashStepBodies(session: Hue.Session, s: FlashSettings, resolve: Color -> Option<XY>,
                        batchOk: nat -> bool, i: nat, p: Payload, n: nat)
    requires KeepsSettings(s, p)
    ensures BatchesCarry(s, FlashStep(session, s, resolve, batchOk, i, p, n).events)
    ensures var step := FlashStep(session, s, resolve, batchOk, i, p, n);
      step.Continue? ==> KeepsSettings(s, step.next)
  {
    var picked := FlashColor(s, resolve, i, p);
    if picked.Some? {
      var q := picked.value;
      assert KeepsSettings(s, q);
      assert CarriesSettings(s, Off(q)) && CarriesSettings(s, q);
    }
  }

  lemma {:induction false} FlashBodiesFrom(session: Hue.Session, s: FlashSettings, resolve: Color -> Option<XY>,
                                          batchOk: nat -> bool, i: nat, p: Payload, n: nat)
    requires KeepsSettings(s, p)
    ensures BatchesCarry(s, FlashFrom(session, s, resolve, batchOk, i, p, n).trace)
    decreases s.flashes - i
  {
    if i < s.flashes {
      var step := FlashStep(session, s, resolve, batchOk, i, p, n);
      FlashStepBodies(session, s, resolve, batchOk, i, p, n);
      if step.Continue? {
        FlashBodiesFrom(session, s, resolve, batchOk, i + 1, step.next, n + 2);
        BatchesCarryAppend(s, step.events, FlashFrom(session, s, resolve, batchOk, i + 1, step.next, n + 2).trace);
      }
    }
  }

  /** Every body of every batch of the run carries the settings' brightness (or 0) and transition time, and no `on`. */
  lemma FlashBodies(session: Hue.Session, s: FlashSettings, resolve: Color -> Option<XY>, batchOk: nat -> bool)
    ensures var t := FlashSpec(session, s, resolve, batchOk).trace;
      forall j, k :: 0 <= j < |t| && t[j].Batch? && 0 <= k < |t[j].requests| ==> CarriesSettings(s, t[j].requests[k].body)
  {
    FlashBodiesFrom(session, s, resolve, batchOk, 0, InitialPayload(s), 0);
  }

  /**
   * The run never reports success: it ends with `undefined` or `false`.
   * Every batch but the last one resolved, and an `undefined` run has no
   * failed batch at all.
   */
  lemma {:induction false} FlashOutcome(session: Hue.Session, s: FlashSettings, resolve: Color -> Option<XY>,
                                        batchOk: nat -> bool, i: nat, p: Payload, n: nat)
    ensures FlashFrom(session, s, resolve, batchOk, i, p, n).result != Returned(true)
    ensures var t := FlashFrom(session, s, resolve, batchOk, i, p, n).trace;
      forall j :: 0 <= j < |t| - 1 && t[j].Batch? ==> t[j].ok
    ensures var r := FlashFrom(session, s, resolve, batchOk, i, p, n);
      r.result == Undefined ==> forall j :: 0 <= j < |r.trace| && r.trace[j].Batch? ==> r.trace[j].ok
    ensures |FlashFrom(session, s, resolve, batchOk, i, p, n).trace| <= 4 * (if s.flashes > i then s.flashes - i else 0)
    decreases s.flashes - i
  {
    if i < s.flashes {
      var step := FlashStep(session, s, resolve, batchOk, i, p, n);
      if step.Continue? {
        FlashOutcome(session, s, resolve, batchOk, i + 1, step.next, n + 2);
      }
    }
  }

  /**
   * Where a run stops. An `undefined` run stops between two flashes (a
   * colour that does not resolve, or the last flash done). A `false` run ends
   * on a failed batch, or on the off sleep of a flash whose on phase had
   * nothing to send. A run whose last event is a failed batch returns `false`.
   */
  predicate EndsCleanly(s: FlashSettings, r: Run)
  {
    && (r.result == Undefined ==> |r.trace| % 4 == 0)
    && (r.result == Returned(false) ==>
          && |r.trace| > 0
          && ((r.trace[|r.trace| - 1].Batch? && !r.trace[|r.trace| - 1].ok)
              || (r.trace[|r.trace| - 1] == Sleep(s.offDuration) && |r.trace| % 4 == 2)))
    && (r.result != Returned(false) ==> |r.trace| == 0 || !r.trace[|r.trace| - 1].Batch? || r.trace[|r.trace| - 1].ok)
  }

  /** A flash that stops ends the run cleanly; one that goes through contributes four events ending in a sleep. */
  lemma FlashStepEnding(session: Hue.Session, s: FlashSettings, resolve: Color -> Option<XY>,
                        batchOk: nat -> bool, i: nat, p: Payload, n: nat)
    ensures var step := FlashStep(session, s, resolve, batchOk, i, p, n);
      step.Stop? ==> EndsCleanly(s, Run(step.result, step.events)) && step.result != Returned(true)
    ensures var step := FlashStep(session, s, resolve, batchOk, i, p, n);
      step.Continue? ==> |step.events| == 4 && step.events[3] == Sleep(s.onDuration)
  {
  }

  /** Every run, from any flash, ends cleanly. */
  lemma {:induction false} FlashEnding(session: Hue.Session, s: FlashSettings, resolve: Color -> Option<XY>,
                                       batchOk: nat -> bool, i: nat, p: Payload, n: nat)
    ensures EndsCleanly(s, FlashFrom(session, s, resolve, batchOk, i, p, n))
    decreases s.flashes - i
  {
    if i < s.flashes {
      var step := FlashStep(session, s, resolve, batchOk, i, p, n);
      FlashStepEnding(session, s, resolve, batchOk, i, p, n);
      if step.Continue? {
        FlashEnding(session, s, resolve, batchOk, i + 1, step.next, n + 2);
        var rest := FlashFrom(session, s, resolve, batchOk, i + 1, step.next, n + 2);
        var r := FlashFrom(session, s, resolve, batchOk, i, p, n);
        assert r == Prepend(step.events, rest);
        assert r.trace == step.events + rest.trace;
        if |rest.trace| > 0 {
          assert r.trace[|r.trace| - 1] == rest.trace[|rest.trace| - 1];
        } else {
          assert r.trace[|r.trace| - 1] == step.events[3];
        }
      }
    }
  }

  /** Two colours cycled over five flashes: c0, c1, c0, c1, c0. */
  lemma TwoColoursFiveFlashes(s: FlashSettings, resolve: Color -> Option<XY>)
    requires s.changeColor && !s.useSingleColor && !s.useEndColor
    requires |s.colors| == 2 && s.flashes == 5
    ensures [XYAt(s, resolve, 0), XYAt(s, resolve, 1), XYAt(s, resolve, 2), XYAt(s, resolve, 3), XYAt(s, resolve, 4)]
      == [resolve(s.colors[0]), resolve(s.colors[1]), resolve(s.colors[0]), resolve(s.colors[1]), resolve(s.colors[0])]
  {
  }
}
