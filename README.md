# espresso-hue in Dafny

A verified model of the logic in espresso-hue, a plugin that lets the
"espresso" automation host drive Philips Hue lights through a Hue bridge's
local REST API. It models these parts:

- **the bridge session** (`EspressoHue`). It holds the bridge address and a
  handle to the access token. It persists both in the host's key-value store,
  and the secret itself in the host's token vault. It offers
  `authenticate`, `revoke`, and `fetch` (a null result when unauthenticated,
  else a URL with the secret in it).
- **target references**. A `"kind:id"` string is split on `:` and becomes a
  PUT to `/lights/{id}/state` or `/groups/{id}/action`. Malformed references
  are dropped, and so is every target when there is no session.
- **the "Set light state" action**. It builds one sparse payload, PUTs it to
  every target at once, and returns `undefined`, `true` or `false`.
- **the "Flash lights" action**. A loop over flashes mutates one payload. Each
  flash picks a colour (single, cycled from a list, or the end colour on the
  last flash), sends an off batch (`bri` 0), sleeps, sends the on batch and
  sleeps again. It aborts with `undefined` or `false`.
- **the lights-and-groups option list** offered to the host's settings form.
- **the HTTP routes**: the connection status, the bridge pairing flow (with
  its fall-through sends), and token revocation.

Network calls, timers and host utilities are inputs: colour resolution is a
function `resolve`, string templating is a function `template`, and the
outcome of each joined batch of requests is a boolean. Actions and routes
produce traces: the batches and sleeps of a flash run, the requests of a
state change, the responses a route handler tries to send.

Files: `wrappers.dfy` (Option), `hue.dfy` (session, store, vault),
`references.dfy` (split and reference parsing), `requests.dfy` (payload
and the request-selection `reduce` both actions share), `strobe.dfy`,
`change_state.dfy`, `options.dfy`, `routes.dfy`.

Notes on the source's behaviour, which the model keeps:

- An empty pairing reply sends `no_auth_res`. The handler then throws on the
  missing first record, and the trailing 500 is sent as well
  (src/registrations/routes.ts:79-102).
- A successful pairing sends 200, and then the trailing 500 as well
  (src/registrations/routes.ts:88-102).
- `revoke` deletes the vault entry behind the handle recorded under
  `hue.token` in the store, not the one held in the settings
  (src/hue.ts:46).
- The flash action always sets `bri` (src/registrations/actions/strobe.ts:211).
- A flash count of zero or less sends nothing and returns `undefined`
  (src/registrations/actions/strobe.ts:254).

## Model

| member | source | states |
|---|---|---|
| `References.Split` | src/registrations/actions/strobe.ts:215 | `split(':')` yields at least one part, no part contains the separator, and joining the parts with it gives back the input |
| `References.SplitJoin` | src/registrations/actions/change-state.ts:185 | separator-free parts survive Join then Split unchanged (the other round trip) |
| `References.ParseRefIff` | src/registrations/actions/strobe.ts:215-231 | a reference is accepted iff it is `light:`/`group:` followed by an id without `:`, and the target is that kind and id; everything else is dropped |
| `References.NoSeparatorDropped` | src/registrations/actions/change-state.ts:185-188 | `"bogus"` and `"light"` (one part) are dropped |
| `References.TooManyPartsDropped` | src/registrations/actions/change-state.ts:185-188 | `"room:1:2"` (three parts) is dropped |
| `References.WellFormedAccepted` | src/registrations/actions/change-state.ts:192-199 | `"light:3"` and `"group:0"` parse to their targets |
| `References.ReferenceEndpoint` | src/registrations/actions/change-state.ts:185-199 | for every id without `:`, `"light:" + id` is accepted as that light and writes `/lights/{id}/state`, and `"group:" + id` is accepted as that group and writes `/groups/{id}/action` |
| `References.Targets` | src/registrations/actions/change-state.ts:184-211 | the targets selected from a reference list are never more than the references |
| `References.TargetsAppend` | src/registrations/actions/strobe.ts:214-241 | selection keeps reference order and judges each reference alone: `Targets(a + b) == Targets(a) + Targets(b)` |
| `References.TargetsSingle` | src/registrations/actions/strobe.ts:218-240 | one reference selects its parsed target or nothing |
| `BridgeRequests.Requests` | src/registrations/actions/change-state.ts:184-211 | every issued request is a PUT carrying the same payload; at most one per reference; none without a session |
| `BridgeRequests.RequestsFollowTargets` | src/registrations/actions/strobe.ts:213-244 | with a session, exactly one request per accepted reference, in order, to that target's URL |
| `BridgeRequests.OffRequestsMirror` | src/registrations/actions/strobe.ts:290-306 | the off batch goes to the same URLs as the on batch, one for one; each off body equals the on body except that `bri` is 0 |
| `BridgeRequests.RequestsEmptyIff` | src/registrations/actions/strobe.ts:233-240 | no request is issued iff there is no session or no accepted reference |
| `Strobe.ColorIndex` | src/registrations/actions/strobe.ts:262-273 | the subtract-until-in-range index ends in `[0, len)` and equals `i mod len` |
| `Strobe.PickColor` | src/registrations/actions/strobe.ts:256-287 | the colour step equals `FlashColor`: single colour, cycled colour `colors[i mod len]`, end colour on the last flash, None when a needed colour does not resolve |
| `Strobe.FlashOnce` | src/registrations/actions/strobe.ts:255-323 | one loop pass equals the step function: off batch, off sleep, on batch, on sleep, with an abort result on a colour failure, a rejected batch or an empty on batch |
| `Strobe.Flash` | src/registrations/actions/strobe.ts:204-325 | the loop over one shared payload produces exactly the result and trace of the recursive run specification: each pass that goes through is followed by the rest of the run, and a pass that stops ends it |
| `Strobe.FlashColorResolved` | src/registrations/actions/strobe.ts:256-287 | when every colour the settings name resolves (other colour values may not), the shared payload of flash `i` carries exactly the history-free colour `XYAt(i)` |
| `Strobe.FlashAllSucceedFrom` | src/registrations/actions/strobe.ts:254-324 | with a session, a target, every colour the settings name resolving and all batches succeeding, the run from flash `i` is the remaining flashes in order, four events each, ending `undefined` |
| `Strobe.FlashStepSucceeds` | src/registrations/actions/strobe.ts:256-319 | under the same conditions for one flash, that flash goes through with its four events and hands on the payload coloured `XYAt(i)` |
| `Strobe.FlashAllSucceed` | src/registrations/actions/strobe.ts:254-324 | the happy path, for a session with a target, every colour the settings name resolving (single colour, each listed colour, end colour when used) and every batch succeeding: `flashes` off and `flashes` on batches in strict off, sleep, on, sleep order, off batches with `bri` 0, on payload of flash `k` coloured by `XYAt(k)`, result `undefined` |
| `Strobe.NoFlashes` | src/registrations/actions/strobe.ts:254 | `flashes <= 0`: no request, no sleep, no return value |
| `Strobe.UnresolvedColourStops` | src/registrations/actions/strobe.ts:256-287 | a flash whose colour does not resolve ends the run with `undefined`, before that flash sends anything |
| `Strobe.FlashDisconnected` | src/registrations/actions/strobe.ts:296-308 | no session: the empty off batch is tolerated, the off sleep happens, and the empty on batch returns `false` |
| `Strobe.FlashOutcome` | src/registrations/actions/strobe.ts:259-323 | the run never returns `true`; nothing follows a failed batch; an `undefined` result has no failed batch; at most four events per flash |
| `Strobe.FlashEnding` | src/registrations/actions/strobe.ts:259-323 | an `undefined` run stops between flashes (trace length a multiple of 4); a `false` run ends on a failed batch, or on the off sleep of a flash whose on batch was empty (length 2 mod 4); a failed last batch means `false` |
| `Strobe.FlashBodies` | src/registrations/actions/strobe.ts:205-211 | every body of every batch in any run leaves `on` unset, has `transitiontime` exactly when a duration is set (duration / 100), and has `bri` equal to the configured brightness in bridge units or 0 |
| `Strobe.TwoColoursFiveFlashes` | src/registrations/actions/strobe.ts:262-273 | two colours over five flashes cycle c0, c1, c0, c1, c0 |
| `ChangeState.BuildPayload` | src/registrations/actions/change-state.ts:160-182 | None iff the colour is changed and the picked colour (picker, or templated colour text) does not resolve; otherwise `on` is the setting, `xy` present iff `changeColor` and equal to that resolved colour, `transitiontime` iff `setDuration`, `bri` iff `setBrightness` |
| `ChangeState.SetLightState` | src/registrations/actions/change-state.ts:159-225 | `undefined` with no request iff the colour does not resolve; otherwise the PUTs of one described payload to the selected targets; `true` when there is no target or no session, else `true` iff the batch resolves |
| `Options.Tagged` | src/registrations/options.ts:22-28 | one option per entry, in entry order: option k has entry k's name as text, `kind:id` as value and the kind's category |
| `Options.Get` | src/registrations/options.ts:10-35 | empty when either fetch is null or either reply throws; otherwise all light options then all group options, #lights + #groups in all, each in entry order |
| `Options.OptionsAreReferences` | src/registrations/options.ts:22-30 | in the listed options, the option of each entry whose id has no `:` parses back to that entry's light or group, whatever the other ids are |
| `Options.OptionIsReference` | src/registrations/options.ts:23 | an entry's option, for an id without `:`, is accepted by the actions' reference parser as that entry's target, and its category names the endpoint it writes |
| `Hue.EspressoHue.constructor` | src/hue.ts:16-34 | without a stored `hue` entry the settings become `{token: null, address: null, version: '1.0.0'}` and that default is written; otherwise the stored settings are used |
| `Hue.EspressoHue.Authenticate` | src/hue.ts:36-43 | the secret goes to the vault under a fresh handle; the address and that handle go to the settings and the `hue.address`/`hue.token` keys; `version` is unchanged; every URL now embeds the raw secret (the vault lookup in src/hue.ts:58) |
| `Hue.EspressoHue.Revoke` | src/hue.ts:45-51 | the vault entry behind the stored handle is deleted; address and token are null in the settings and the store; `version` is unchanged; `fetch` gives null for every path (src/hue.ts:55) |
| `Hue.TokenVault.Set` | src/hue.ts:37 | a fresh handle is issued and `get(set(t)) == t`; no other entry changes |
| `Hue.TokenVault.Delete` | src/hue.ts:46 | the handle's entry is gone; no other entry changes |
| `Hue.KeyValueStore.Set` | src/hue.ts:39-40 | the key holds the new value; no other key changes |
| `Hue.AuthenticateThenRevoke` | src/hue.ts:36-51 | revoke after authenticate leaves the session disconnected, the vault as it was and `version` unchanged |
| `Hue.RevokeThenAuthenticate` | src/hue.ts:36-58 | authenticate after revoke leaves the session connected, and the URL for every path embeds the new secret |
| `Routes.Status` | src/registrations/routes.ts:41-44 | status 200, and `connected` is true exactly when the session issues bridge requests (a URL for every path) and false exactly when it issues none |
| `Routes.Pair` | src/registrations/routes.ts:50-103 | discovery failure: 500 `discovery_error`; no bridge: 500 `no_bridge`; pairing targets the first bridge; error record: 500 `auth_fail` with the bridge's description; empty reply: `no_auth_res` then the trailing 500; success: authenticate with the first bridge's address and the user name (settings, vault and both store keys), 200, then the trailing 500; only a success record changes the session, the vault or the store |
| `Routes.RevokeRoute` | src/registrations/routes.ts:109-112 | revokes the session (vault entry behind the stored handle deleted, `hue.address` and `hue.token` null in the store and the settings) and sends 200 |
| `Routes.StatusAroundRevoke` | src/registrations/routes.ts:41-44 | the status route reports connected right after a pairing authenticates the session, and disconnected right after the revoke route |

## Left out

- HTTP itself is not modelled: `node-fetch`, the response objects, JSON parsing and serialisation (including payload key order). The pairing request body `{devicetype: 'espresso-hue'}` is not modelled either; only the URL it goes to is.
- Concurrency is simplified. A `Promise.all` join is one batch that wholly resolves or rejects, given as an input. Requests within a batch are not ordered in time.
- The actions read the session once, at the start of a run. In the source, a route handler running during an `await` could pair or revoke between flashes; the model does not capture that.
- `sleep` is a trace event; no time passes.
- The RGB to xy conversion (`calcXY`) and the host's colour lookup (`getColorValue`) are one input function, `resolve`. src/color.ts is not part of this model. The host's structured colour value is opaque.
- The host's templating (`parseVariables`) is an input function of the colour text; the trigger data is fixed within it.
- `bri = brightness / 100 * 254` and `transitiontime = duration / 100` are computed on `real`, not on JavaScript doubles, so there is no rounding.
- The payload fields `effect` and `alert` are left out: neither action ever sets them.
- The host's key-value store is a flat map from key to value. Whether the host treats `hue.address` as a path inside the `hue` record is host-defined and not modelled. So is the aliasing between the settings object and the stored default record.
- Hue.EspressoHue.constructor: requires that a stored `hue` value be a settings record, as the source's cast assumes; other stored values are not modelled.
- The token vault's handle format is host-defined. The model issues handles as consecutive numbers and deletes only a numeric handle found under `hue.token`; deleting `null` is a no-op.
- `Object.entries` ordering of the bridge's `/lights` and `/groups` records is taken as given: each reply is the sequence of entries in that order.
- Options.Get: a reply is either a sequence of (id, name) entries or a thrown error. A reply that is `null`, or holds a `null` record, throws in the source, so it is modelled as a thrown error. An array reply, such as the bridge's `[{"error": …}]` for an unauthorised user, does not throw in the source: `Object.entries` yields key `"0"`, and options.ts:22-30 returns `{text: undefined, value: "light:0"}` and a `group:0` option. The model does not capture that difference: it has no `undefined` name, so such a reply is outside it. The order in which the two awaits fail is not modelled.
- Routes.Pair: the sends are the responses the handler tries to send. What the host server does with a second send after the first has gone out is not modelled. Pairing records that are not objects, or that hold both `success` and `error`, are not modelled.
- The `colors[i]` truthiness test assumes every configured colour entry is an object. `flashes` is an integer, not any JavaScript number.
- The `/hue` dashboard route, the action, option and route registries, the settings-schema arrays, the type file src/types/hue.ts, and `console.log` are not modelled; they are host plumbing or declarative UI data.
