/**
 * What the two light actions send to the bridge: a sparse state payload,
 * PUT to the endpoint of every accepted target reference.
 */
module BridgeRequests {
  import opened Wrappers
  import opened References
  import Hue

  /** A CIE xy colour, as the colour conversion returns it. */
  datatype XY = XY(x: real, y: real)

  /**
   * A colour setting as the host hands it over: a colour string, or the
   * host's structured colour value (kept opaque here).
   */
  datatype Color = ColorString(text: string) | ColorValue(value: string)

  /** The bridge state payload: absent fields leave the bridge state as it is. */
  datatype Payload = Payload(xy: Option<XY>, on: Option<bool>, bri: Option<real>, transitiontime: Option<real>)

  /** One issued bridge request: a PUT of a payload to a URL. */
  datatype Request = Put(url: string, body: Payload)

  /** An action's return value: `undefined`, or a boolean. */
  datatype RunResult = Undefined | Returned(value: bool)

  /** Brightness in percent, in bridge units (0..254). */
  function Brightness(percent: real): real
  {
    percent / 100.0 * 254.0
  }

  /** A duration in milliseconds, as the source converts it to the bridge's `transitiontime`. */
  function TransitionTime(ms: real): real
  {
    ms / 100.0
  }

  /** The off variant of a payload: the same fields with `bri` forced to 0. */
  function Off(p: Payload): Payload
  {
    p.(bri := Some(0.0))
  }

  /**
   * The requests issued for a list of references: the `reduce` over the
   * references, skipping malformed ones and skipping every target for which
   * the session gives no URL.
   */
  function Requests(session: Hue.Session, refs: seq<string>, p: Payload): (rs: seq<Request>)
    ensures |rs| <= |refs|
    ensures forall k :: 0 <= k < |rs| ==> rs[k].body == p
    ensures !session.Connected() ==> rs == []
    decreases |refs|
  {
    if refs == [] then []
    else
      var acc := Requests(session, refs[..|refs| - 1], p);
      match ParseRef(refs[|refs| - 1])
      case None => acc
      case Some(t) =>
        match session.Fetch(Endpoint(t))
        case None => acc
        case Some(url) => acc + [Put(url, p)]
  }

  /** The URL of a target for a connected session. */
  function TargetUrl(session: Hue.Session, t: Target): (url: string)
    requires session.Connected()
    ensures session.Fetch(Endpoint(t)) == Some(url)
  {
    session.Fetch(Endpoint(t)).value
  }

  /**
   * For a connected session there is exactly one request per accepted
   * reference, in reference order, to that target's endpoint.
   */
  lemma {:induction false} RequestsFollowTargets(session: Hue.Session, refs: seq<string>, p: Payload)
    requires session.Connected()
    ensures |Requests(session, refs, p)| == |Targets(refs)|
    ensures forall k :: 0 <= k < |Targets(refs)| ==>
      Requests(session, refs, p)[k] == Put(TargetUrl(session, Targets(refs)[k]), p)
    decreases |refs|
  {
    if refs != [] {
      RequestsFollowTargets(session, refs[..|refs| - 1], p);
    }
  }

  /**
   * The off batch goes to the same URLs as the on batch, and each off body
   * differs from the on body in `bri` alone, which is 0.
   */
  lemma OffRequestsMirror(session: Hue.Session, refs: seq<string>, p: Payload)
    ensures |Requests(session, refs, Off(p))| == |Requests(session, refs, p)|
    ensures forall k :: 0 <= k < |Requests(session, refs, p)| ==>
      var off, on := Requests(session, refs, Off(p))[k], Requests(session, refs, p)[k];
      && off.url == on.url
      && off.body.bri == Some(0.0)
      && off.body.xy == on.body.xy && off.body.on == on.body.on && off.body.transitiontime == on.body.transitiontime
  {
    if session.Connected() {
      RequestsFollowTargets(session, refs, p);
      RequestsFollowTargets(session, refs, Off(p));
    }
  }

  /** A connected session issues a request exactly when some reference is accepted. */
  lemma RequestsEmptyIff(session: Hue.Session, refs: seq<string>, p: Payload)
    ensures Requests(session, refs, p) == [] <==> !session.Connected() || Targets(refs) == []
  {
    if session.Connected() {
      RequestsFollowTargets(session, refs, p);
    }
  }
}
