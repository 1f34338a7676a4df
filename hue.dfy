/**
 * The bridge session (`EspressoHue`): the bridge address and a handle to the
 * access token, kept in the host's key-value store and token vault.
 */
module Hue {
  import opened Wrappers

  /** An opaque id the token vault issues for a stored secret. */
  type Handle = nat

  /** The persisted settings; `token` holds a vault handle, never the secret. */
  datatype Settings = Settings(token: Option<Handle>, address: Option<string>, version: string)

  /**
   * The session as one request sees it: the settings and the vault's
   * entries. Nothing changes either while an action builds its requests.
   */
  datatype Session = Session(settings: Settings, tokens: map<Handle, string>) {
    /** Address and token both known: the session can reach the bridge. */
    predicate Connected()
    {
      settings.address.Some? && settings.token.Some?
    }

    /** The text a template literal shows for the vault lookup of `h`: "undefined" when unknown. */
    function TokenText(h: Handle): string
    {
      if h in tokens then tokens[h] else "undefined"
    }

    /**
     * The URL a request to `path` goes to, or None when address or token is
     * missing (the source then returns null and issues nothing).
     */
    function Fetch(path: string): Option<string>
    {
      if settings.address.None? || settings.token.None? then None
      else Some("http://" + settings.address.value + "/api/" + TokenText(settings.token.value) + path)
    }
  }

  /** What a fresh installation starts from. */
  const DefaultSettings := Settings(None, None, "1.0.0")

  /** The values this plugin writes into the host's key-value store. */
  datatype StoreValue = Null | Text(text: string) | TokenRef(handle: Handle) | Record(settings: Settings)

  /** The host's key-value store, with flat keys. */
  class KeyValueStore {
    var entries: map<string, StoreValue>

    constructor (initial: map<string, StoreValue>)
      ensures entries == initial
    {
      entries := initial;
    }

    function Get(key: string): Option<StoreValue>
      reads this
    {
      if key in entries then Some(entries[key]) else None
    }

    method Set(key: string, v: StoreValue)
      modifies this
      ensures entries == old(entries)[key := v]
      ensures Get(key) == Some(v)
    {
      entries := entries[key := v];
    }
  }

  /** The host's token vault: secrets behind handles it issues itself. */
  class TokenVault {
    var entries: map<Handle, string>
    var next: Handle

    /** Every handle in use was issued before `next`. */
    ghost predicate Valid()
      reads this
    {
      forall h :: h in entries ==> h < next
    }

    constructor ()
      ensures Valid() && entries == map[]
    {
      entries := map[];
      next := 0;
    }

    /** Stores a secret under a fresh handle; `Get(Set(t)) == t`. */
    method Set(secret: string) returns (h: Handle)
      requires Valid()
      modifies this
      ensures Valid()
      ensures h !in old(entries) && h == old(next)
      ensures entries == old(entries)[h := secret]
      ensures h in entries && entries[h] == secret
    {
      h := next;
      entries := entries[h := secret];
      next := next + 1;
    }

    method Delete(h: Handle)
      requires Valid()
      modifies this
      ensures Valid() && next == old(next)
      ensures entries == old(entries) - {h}
      ensures h !in entries
    {
      entries := entries - {h};
    }
  }

  /** The store keys the session writes. */
  const SettingsKey := "hue"
  const AddressKey := "hue.address"
  const TokenKey := "hue.token"

  class EspressoHue {
    const store: KeyValueStore
    const vault: TokenVault
    var settings: Settings

    ghost predicate Valid()
      reads this, vault
    {
      vault.Valid()
    }

    /** The session as the next request sees it. */
    function View(): Session
      reads this, vault
    {
      Session(settings, vault.entries)
    }

    /** Address and token both known (the `/api/hue` status route reports this). */
    predicate Connected()
      reads this, vault
    {
      View().Connected()
    }

    /**
     * Loads the settings from the store, or writes and uses the defaults
     * when the store has none. A stored value at "hue" is taken to be a
     * settings record, as the source's cast assumes.
     */
    constructor (store: KeyValueStore, vault: TokenVault)
      requires vault.Valid()
      requires SettingsKey in store.entries ==> store.entries[SettingsKey].Record?
      modifies store
      ensures Valid() && this.store == store && this.vault == vault
      ensures SettingsKey in old(store.entries) ==>
        settings == old(store.entries)[SettingsKey].settings && store.entries == old(store.entries)
      ensures SettingsKey !in old(store.entries) ==>
        settings == DefaultSettings && store.entries == old(store.entries)[SettingsKey := Record(DefaultSettings)]
      ensures SettingsKey !in old(store.entries) ==> !Connected()
    {
      var stored := store.Get(SettingsKey);
      this.store := store;
      this.vault := vault;
      if stored.None? {
        store.Set(SettingsKey, Record(DefaultSettings));
        settings := DefaultSettings;
      } else {
        settings := stored.value.settings;
      }
    }

    /**
     * Stores the secret in the vault and the address and the handle in the
     * settings and the store. Afterwards every bridge URL embeds the secret.
     */
    method Authenticate(ip: string, token: string)
      requires Valid()
      modifies this, store, vault
      ensures Valid()
      ensures settings == old(settings).(token := Some(old(vault.next)), address := Some(ip))
      ensures vault.entries == old(vault.entries)[old(vault.next) := token]
      ensures old(vault.next) !in old(vault.entries)
      ensures store.entries == old(store.entries)[AddressKey := Text(ip)][TokenKey := TokenRef(old(vault.next))]
      ensures Connected()
      ensures forall path :: View().Fetch(path) == Some("http://" + ip + "/api/" + token + path)
    {
      var tokenId := vault.Set(token);
      store.Set(AddressKey, Text(ip));
      store.Set(TokenKey, TokenRef(tokenId));
      settings := settings.(token := Some(tokenId));
      settings := settings.(address := Some(ip));
    }

    /**
     * Deletes the vault entry behind the handle in the store, and clears
     * address and token in the store and the settings.
     */
    method Revoke()
      requires Valid()
      modifies this, store, vault
      ensures Valid()
      ensures settings == old(settings).(token := None, address := None)
      ensures store.entries == old(store.entries)[AddressKey := Null][TokenKey := Null]
      ensures vault.entries == StoredHandleRemoved(old(store.entries), old(vault.entries))
      ensures !Connected()
      ensures forall path :: View().Fetch(path) == None
    {
      var stored := store.Get(TokenKey);
      if stored.Some? && stored.value.TokenRef? {
        vault.Delete(stored.value.handle);
      }
      store.Set(AddressKey, Null);
      store.Set(TokenKey, Null);
      settings := settings.(token := None);
      settings := settings.(address := None);
    }
  }

  /** The vault after the handle recorded under "hue.token" (if any) is deleted. */
  function StoredHandleRemoved(store: map<string, StoreValue>, vault: map<Handle, string>): map<Handle, string>
  {
    if TokenKey in store && store[TokenKey].TokenRef? then vault - {store[TokenKey].handle} else vault
  }

  /** A pairing followed by a revocation leaves the session disconnected, and vice versa. */
  method AuthenticateThenRevoke(hue: EspressoHue, ip: string, token: string)
    requires hue.Valid()
    modifies hue, hue.store, hue.vault
    ensures hue.Valid() && !hue.Connected() && hue.View().Fetch("/lights") == None
    ensures hue.settings.version == old(hue.settings.version)
    ensures hue.vault.entries == old(hue.vault.entries)
  {
    hue.Authenticate(ip, token);
    hue.Revoke();
  }

  method RevokeThenAuthenticate(hue: EspressoHue, ip: string, token: string)
    requires hue.Valid()
    modifies hue, hue.store, hue.vault
    ensures hue.Valid() && hue.Connected()
    ensures forall path :: hue.View().Fetch(path) == Some("http://" + ip + "/api/" + token + path)
    ensures hue.settings.version == old(hue.settings.version)
  {
    hue.Revoke();
    hue.Authenticate(ip, token);
  }
}
