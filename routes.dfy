/**
 * The plugin's HTTP routes: the connection status, the bridge pairing flow
 * and the revocation of the stored token. A handler's effect is the list of
 * responses it tries to send, in order (the server delivers only the first
 * of them to the client).
 */
module Routes {
  import opened Wrappers
  import Hue

  datatype Body = NoBody | ConnectionJson(connected: bool) | ErrorJson(error: string, code: string)

  datatype Response = Response(status: int, body: Body)

  /** One entry of the bridge discovery service's reply. */
  datatype Bridge = Bridge(id: string, internalipaddress: string)

  /** The discovery call: it throws, answers with a non-ok status, or lists bridges. */
  datatype Discovery = DiscoveryThrew | DiscoveryNotOk | Discovered(bridges: seq<Bridge>)

  /** One record of the bridge's pairing reply; `Unrecognised` has neither key. */
  datatype AuthRecord =
    | AuthSuccess(username: string)
    | AuthError(errorType: int, address: string, description: string)
    | Unrecognised

  /** The pairing call: it throws (or its body is not JSON), or yields its records. */
  datatype AuthReply = AuthThrew | AuthRecords(records: seq<AuthRecord>)

  const DiscoveryErrorText := "Can't connect to birdge discovery utility."
  const NoBridgeText := "No bridges discovered on your network."
  const NoAuthResponseText := "No auth response?."

  const ServerError := Response(500, NoBody)
  const Ok := Response(200, NoBody)

  /**
   * GET /api/hue: 200 with whether address and token are both set, which is
   * whether the session issues bridge requests at all.
   */
  method Status(hue: Hue.EspressoHue) returns (res: Response)
    ensures res.status == 200 && res.body.ConnectionJson?
    ensures res.body.connected == hue.Connected()
    ensures res.body.connected ==> forall path :: hue.View().Fetch(path).Some?
    ensures !res.body.connected ==> forall path :: hue.View().Fetch(path).None?
  {
    var connected := hue.settings.address.Some? && hue.settings.token.Some?;
    res := Response(200, ConnectionJson(connected));
  }

  /** The bridge pairing targets: the first discovered bridge, when there is one. */
  function FirstBridge(d: Discovery): Option<Bridge>
  {
    if d.Discovered? && |d.bridges| > 0 then Some(d.bridges[0]) else None
  }

  /** The user name a pairing reply grants: its first record, when that is a success. */
  function GrantedUser(a: AuthReply): Option<string>
  {
    if a.AuthRecords? && |a.records| > 0 && a.records[0].AuthSuccess? then Some(a.records[0].username) else None
  }

  /**
   * GET /api/hue/auth. Discovery failures answer 500 `discovery_error` or
   * `no_bridge` and return; a pairing error record answers 500 `auth_fail`
   * with the bridge's description and returns. The other paths fall through
   * to the trailing 500: an empty pairing reply sends `no_auth_res` and then
   * fails on its missing first record, and a success answers 200 and goes on.
   * Only a success record pairs the session, with the first bridge's address.
   */
  method Pair(hue: Hue.EspressoHue, discovery: Discovery, auth: AuthReply)
    returns (sent: seq<Response>, contacted: Option<string>)
    requires hue.Valid()
    modifies hue, hue.store, hue.vault
    ensures hue.Valid()
    ensures contacted == if FirstBridge(discovery).Some? then Some("http://" + FirstBridge(discovery).value.internalipaddress + "/api") else None
    ensures discovery == DiscoveryThrew ==> sent == [ServerError]
    ensures discovery == DiscoveryNotOk ==> sent == [Response(500, ErrorJson(DiscoveryErrorText, "discovery_error"))]
    ensures discovery == Discovered([]) ==> sent == [Response(500, ErrorJson(NoBridgeText, "no_bridge"))]
    ensures FirstBridge(discovery).Some? ==>
      match auth
      case AuthThrew => sent == [ServerError]
      case AuthRecords(records) =>
        if |records| == 0 then sent == [Response(500, ErrorJson(NoAuthResponseText, "no_auth_res")), ServerError]
        else match records[0]
          case AuthSuccess(_) => sent == [Ok, ServerError]
          case AuthError(_, _, description) => sent == [Response(500, ErrorJson(description, "auth_fail"))]
          case Unrecognised => sent == [ServerError]
    ensures FirstBridge(discovery).Some? && GrantedUser(auth).Some? ==>
      && hue.settings == old(hue.settings).(token := Some(old(hue.vault.next)),
                                            address := Some(FirstBridge(discovery).value.internalipaddress))
      && hue.vault.entries == old(hue.vault.entries)[old(hue.vault.next) := GrantedUser(auth).value]
      && hue.store.entries == old(hue.store.entries)[Hue.AddressKey := Hue.Text(FirstBridge(discovery).value.internalipaddress)]
                                                   [Hue.TokenKey := Hue.TokenRef(old(hue.vault.next))]
      && hue.Connected()
    ensures FirstBridge(discovery).None? || GrantedUser(auth).None? ==>
      && hue.settings == old(hue.settings)
      && hue.vault.entries == old(hue.vault.entries)
      && hue.store.entries == old(hue.store.entries)
  {
    sent, contacted := [], None;
    // try {
    match discovery {
      case DiscoveryThrew =>
      case DiscoveryNotOk =>
        sent := sent + [Response(500, ErrorJson(DiscoveryErrorText, "discovery_error"))];
        return;
      case Discovered(bridges) =>
        if |bridges| == 0 {
          sent := sent + [Response(500, ErrorJson(NoBridgeText, "no_bridge"))];
          return;
        }
        contacted := Some("http://" + bridges[0].internalipaddress + "/api");
        match auth {
          case AuthThrew =>
          case AuthRecords(records) =>
            if |records| == 0 {
              sent := sent + [Response(500, ErrorJson(NoAuthResponseText, "no_auth_res"))];
              // `authJson[0]` is undefined and the `in` test on it throws.
            } else {
              match records[0] {
                case AuthSuccess(username) =>
                  hue.Authenticate(bridges[0].internalipaddress, username);
                  sent := sent + [Ok];
                case AuthError(_, _, description) =>
                  sent := sent + [Response(500, ErrorJson(description, "auth_fail"))];
                  return;
                case Unrecognised =>
              }
            }
        }
    }
    // } catch: the error is logged.
    sent := sent + [ServerError];
  }

  /** POST /api/hue/auth/revoke: revokes the session and answers 200. */
  method RevokeRoute(hue: Hue.EspressoHue) returns (sent: seq<Response>)
    requires hue.Valid()
    modifies hue, hue.store, hue.vault
    ensures hue.Valid() && !hue.Connected()
    ensures hue.settings == old(hue.settings).(token := None, address := None)
    ensures hue.vault.entries == Hue.StoredHandleRemoved(old(hue.store.entries), old(hue.vault.entries))
    ensures hue.store.entries == old(hue.store.entries)[Hue.AddressKey := Hue.Null][Hue.TokenKey := Hue.Null]
    ensures sent == [Ok]
  {
    hue.Revoke();
    sent := [Ok];
  }

  /**
   * The status route follows pairing and revocation: connected right after
   * a session is authenticated, disconnected right after the revoke route.
   */
  method StatusAroundRevoke(hue: Hue.EspressoHue, ip: string, token: string)
    returns (paired: Response, revoked: Response)
    requires hue.Valid()
    modifies hue, hue.store, hue.vault
    ensures paired == Response(200, ConnectionJson(true))
    ensures revoked == Response(200, ConnectionJson(false))
  {
    hue.Authenticate(ip, token);
    paired := Status(hue);
    var sent := RevokeRoute(hue);
    revoked := Status(hue);
  }
}
