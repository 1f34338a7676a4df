/**
 * The "hue:lights-and-groups" option list: every light and every group the
 * bridge reports, as a labelled option whose value is its target reference.
 */
module Options {
  import opened Wrappers
  import opened References
  import Hue

  /** One record of the bridge's `/lights` or `/groups` reply, in `Object.entries` order. */
  datatype Entry = Entry(id: string, name: string)

  /** An option of the host's select input (the host spells the field `catigory`). */
  datatype SelectOption = SelectOption(text: string, value: string, catigory: string)

  /** The awaited reply of one listing request: its entries, or an error thrown on the way. */
  datatype Listing = Listed(entries: seq<Entry>) | Threw

  function Category(kind: Kind): string
  {
    match kind
    case LightKind => "Lights"
    case GroupKind => "Groups"
  }

  /** The option for one entry of the given kind. */
  function OptionFor(kind: Kind, e: Entry): SelectOption
  {
    SelectOption(e.name, Reference(Target(kind, e.id)), Category(kind))
  }

  /** The `reduce` over the entries of one reply: one option per entry, in entry order. */
  function Tagged(entries: seq<Entry>, kind: Kind): (opts: seq<SelectOption>)
    ensures |opts| == |entries|
    ensures forall k :: 0 <= k < |entries| ==> opts[k] == OptionFor(kind, entries[k])
    decreases |entries|
  {
    if entries == [] then []
    else Tagged(entries[..|entries| - 1], kind) + [OptionFor(kind, entries[|entries| - 1])]
  }

  /**
   * The option list: empty when the session cannot issue the requests or
   * when either reply throws; otherwise all light options, then all group
   * options.
   */
  function Get(session: Hue.Session, lights: Listing, groups: Listing): (opts: seq<SelectOption>)
    ensures session.Fetch("/lights").None? || session.Fetch("/groups").None? ==> opts == []
    ensures lights.Threw? || groups.Threw? ==> opts == []
    ensures session.Connected() && lights.Listed? && groups.Listed? ==>
      && |opts| == |lights.entries| + |groups.entries|
      && (forall k :: 0 <= k < |lights.entries| ==> opts[k] == OptionFor(LightKind, lights.entries[k]))
      && (forall k :: 0 <= k < |groups.entries| ==>
            opts[|lights.entries| + k] == OptionFor(GroupKind, groups.entries[k]))
  {
    if session.Fetch("/lights").None? || session.Fetch("/groups").None? then []
    else
      match (lights, groups)
      case (Listed(ls), Listed(gs)) => Tagged(ls, LightKind) + Tagged(gs, GroupKind)
      case _ => []
  }

  /**
   * The option of an entry whose id has no ':' is a reference the light
   * actions accept: it parses back to that entry's target, and its category
   * names the endpoint it writes.
   */
  lemma OptionIsReference(kind: Kind, e: Entry)
    requires Sep !in e.id
    ensures ParseRef(OptionFor(kind, e).value) == Some(Target(kind, e.id))
    ensures OptionFor(kind, e).catigory == "Lights" <==> kind == LightKind
    ensures Endpoint(ParseRef(OptionFor(kind, e).value).value) ==
      if OptionFor(kind, e).catigory == "Lights" then "/lights/" + e.id + "/state" else "/groups/" + e.id + "/action"
  {
    ParseRefIff(OptionFor(kind, e).value, Target(kind, e.id));
  }

  /**
   * In the listed options, each option of an entry whose id has no ':' parses
   * back to that entry's light or group, whatever the other ids are.
   */
  lemma OptionsAreReferences(session: Hue.Session, lights: Listing, groups: Listing)
    requires session.Connected() && lights.Listed? && groups.Listed?
    ensures var opts := Get(session, lights, groups);
      forall k :: 0 <= k < |lights.entries| && Sep !in lights.entries[k].id ==>
        ParseRef(opts[k].value) == Some(Target(LightKind, lights.entries[k].id))
    ensures var opts := Get(session, lights, groups);
      forall k :: 0 <= k < |groups.entries| && Sep !in groups.entries[k].id ==>
        ParseRef(opts[|lights.entries| + k].value) == Some(Target(GroupKind, groups.entries[k].id))
  {
    forall k | 0 <= k < |lights.entries| && Sep !in lights.entries[k].id
      ensures ParseRef(OptionFor(LightKind, lights.entries[k]).value) == Some(Target(LightKind, lights.entries[k].id))
    {
      OptionIsReference(LightKind, lights.entries[k]);
    }
    forall k | 0 <= k < |groups.entries| && Sep !in groups.entries[k].id
      ensures ParseRef(OptionFor(GroupKind, groups.entries[k]).value) == Some(Target(GroupKind, groups.entries[k].id))
    {
      OptionIsReference(GroupKind, groups.entries[k]);
    }
  }
}
