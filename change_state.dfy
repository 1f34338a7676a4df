/**
 * The "Set light state" action (hue:set-light-state).
 *
 * One payload is built field by field, then PUT to every accepted target
 * reference at once. `resolve` stands for the host's colour lookup followed
 * by the xy conversion, `template` for the host's templating of the colour
 * text against the trigger data, and `batchOk` for whether the joined batch
 * of requests resolves (a batch of no requests always resolves).
 */
module ChangeState {
  import opened Wrappers
  import opened References
  import opened BridgeRequests
  import Hue

  datatype StateSettings = StateSettings(
    lights: seq<string>,
    on: bool,
    setDuration: bool,
    duration: real,
    changeColor: bool,
    useColorPicker: bool,
    colorPicker: Color,
    colorText: string,
    setBrightness: bool,
    brightness: real)

  /** Where the colour comes from: the picker, or the colour text after templating. */
  function ColorSource(s: StateSettings, template: string -> string): Color
  {
    if s.useColorPicker then s.colorPicker else ColorString(template(s.colorText))
  }

  /**
   * The payload the settings ask for: `on` always; `xy` exactly when the
   * colour is changed; `transitiontime` exactly when a duration is set;
   * `bri` exactly when a brightness is set.
   */
  predicate Describes(s: StateSettings, resolve: Color -> Option<XY>, template: string -> string, p: Payload)
  {
    && p.on == Some(s.on)
    && p.xy == (if s.changeColor then resolve(ColorSource(s, template)) else None)
    && p.transitiontime == (if s.setDuration then Some(TransitionTime(s.duration)) else None)
    && p.bri == (if s.setBrightness then Some(Brightness(s.brightness)) else None)
  }

  /**
   * The payload, or None when the colour is to be changed and does not
   * resolve (the action then returns `undefined` before any request).
   */
  method BuildPayload(s: StateSettings, resolve: Color -> Option<XY>, template: string -> string)
    returns (p: Option<Payload>)
    ensures p.None? <==> s.changeColor && resolve(ColorSource(s, template)).None?
    ensures p.Some? ==> Describes(s, resolve, template, p.value)
    ensures p.Some? && s.changeColor ==> p.value.xy.Some?
  {
    var payload := Payload(None, Some(s.on), None, None);

    if s.changeColor {
      if s.useColorPicker {
        var color := resolve(s.colorPicker);
        if color.None? {
          return None;
        }
        payload := payload.(xy := color);
      } else {
        var color := resolve(ColorString(template(s.colorText)));
        if color.None? {
          return None;
        }
        payload := payload.(xy := color);
      }
    }

    if s.setDuration {
      payload := payload.(transitiontime := Some(TransitionTime(s.duration)));
    }

    if s.setBrightness {
      payload := payload.(bri := Some(Brightness(s.brightness)));
    }

    p := Some(payload);
  }

  /**
   * The action's `run`: `undefined` when the colour does not resolve;
   * otherwise one PUT of the same payload per accepted reference, and `true`
   * unless the joined batch rejects. No target at all (or no session) means
   * no request and `true`.
   */
  method SetLightState(hue: Hue.EspressoHue, s: StateSettings, resolve: Color -> Option<XY>,
                       template: string -> string, batchOk: bool)
    returns (result: RunResult, sent: seq<Request>)
    ensures result == Undefined <==> s.changeColor && resolve(ColorSource(s, template)).None?
    ensures result == Undefined ==> sent == []
    ensures result != Undefined ==>
      exists p :: Describes(s, resolve, template, p) && sent == Requests(hue.View(), s.lights, p)
    ensures forall k :: 0 <= k < |sent| ==> Describes(s, resolve, template, sent[k].body)
    ensures |sent| <= |s.lights|
    ensures result != Undefined ==> (sent == [] <==> !hue.Connected() || Targets(s.lights) == [])
    ensures result != Undefined ==> result == Returned(sent == [] || batchOk)
  {
    var payload := BuildPayload(s, resolve, template);
    if payload.None? {
      return Undefined, [];
    }

    sent := Requests(hue.View(), s.lights, payload.value);
    RequestsEmptyIff(hue.View(), s.lights, payload.value);

    if sent != [] && !batchOk {
      result := Returned(false);
    } else {
      result := Returned(true);
    }
  }
}
