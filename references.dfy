/**
 * Target references of the two light actions.
 *
 * A light or group is named by a string "kind:id". The actions split it on
 * ':' (JavaScript's String.prototype.split) and keep it only when it has
 * exactly two parts and the first part is "light" or "group".
 */
module References {
  import opened Wrappers

  /** The separator between kind and id. */
  const Sep: char := ':'

  datatype Kind = LightKind | GroupKind

  /** A parsed reference: what the actions send a request to. */
  datatype Target = Target(kind: Kind, id: string)

  function KindName(k: Kind): string
  {
    match k
    case LightKind => "light"
    case GroupKind => "group"
  }

  /** The reference string the option list hands out for a target. */
  function Reference(t: Target): string
  {
    KindName(t.kind) + [Sep] + t.id
  }

  /** The bridge endpoint a target's state is written to. */
  function Endpoint(t: Target): string
  {
    match t.kind
    case LightKind => "/lights/" + t.id + "/state"
    case GroupKind => "/groups/" + t.id + "/action"
  }

  /** The inverse of Split: the parts glued back with the separator. */
  function Join(parts: seq<string>, sep: char): string
    requires |parts| >= 1
    decreases |parts|
  {
    if |parts| == 1 then parts[0] else parts[0] + [sep] + Join(parts[1..], sep)
  }

  /**
   * JavaScript's `s.split(sep)` for a one-character separator: the maximal
   * separator-free pieces, empty pieces included ("" gives [""],
   * "a:" gives ["a", ""]).
   */
  function Split(s: string, sep: char): (parts: seq<string>)
    ensures |parts| >= 1
    ensures forall k :: 0 <= k < |parts| ==> sep !in parts[k]
    ensures Join(parts, sep) == s
    decreases |s|
  {
    if |s| == 0 then [""]
    else
      var rest := Split(s[1..], sep);
      assert s == [s[0]] + s[1..];
      if s[0] == sep then [""] + rest
      else
        var parts := [[s[0]] + rest[0]] + rest[1..];
        assert |rest| > 1 ==> Join(rest, sep) == rest[0] + [sep] + Join(rest[1..], sep);
        assert |rest| > 1 ==> Join(parts, sep) == parts[0] + [sep] + Join(rest[1..], sep);
        parts
  }

  /** Splitting a piece with no separator, glued to the rest, peels that piece off. */
  lemma {:induction false} SplitPrefix(x: string, y: string, sep: char)
    requires sep !in x
    ensures Split(x + [sep] + y, sep) == [x] + Split(y, sep)
    decreases |x|
  {
    var s := x + [sep] + y;
    if |x| == 0 {
      assert s == [sep] + y && s[0] == sep && s[1..] == y;
      assert Split(s, sep) == [""] + Split(s[1..], sep);
    } else {
      assert s[0] == x[0] && s[0] != sep;
      assert s[1..] == x[1..] + [sep] + y;
      SplitPrefix(x[1..], y, sep);
      var rest := Split(s[1..], sep);
      assert rest == [x[1..]] + Split(y, sep);
      assert Split(s, sep) == [[s[0]] + rest[0]] + rest[1..];
      assert [x[0]] + x[1..] == x;
    }
  }

  /** Round trip the other way: parts free of the separator survive Join then Split. */
  lemma {:induction false} SplitJoin(parts: seq<string>, sep: char)
    requires |parts| >= 1
    requires forall k :: 0 <= k < |parts| ==> sep !in parts[k]
    ensures Split(Join(parts, sep), sep) == parts
    decreases |parts|
  {
    if |parts| == 1 {
      SplitNoSep(parts[0], sep);
    } else {
      SplitJoin(parts[1..], sep);
      SplitPrefix(parts[0], Join(parts[1..], sep), sep);
      assert [parts[0]] + parts[1..] == parts;
    }
  }

  /** A string without the separator splits into itself alone. */
  lemma {:induction false} SplitNoSep(x: string, sep: char)
    requires sep !in x
    ensures Split(x, sep) == [x]
    decreases |x|
  {
    if |x| > 0 {
      assert x[0] != sep;
      SplitNoSep(x[1..], sep);
      assert [x[0]] + x[1..] == x;
    }
  }

  /** `light.split(':')` and the switch on its first part. */
  function ParseRef(ref: string): Option<Target>
  {
    var split := Split(ref, Sep);
    if |split| != 2 then None
    else if split[0] == "group" then Some(Target(GroupKind, split[1]))
    else if split[0] == "light" then Some(Target(LightKind, split[1]))
    else None
  }

  /**
   * A reference is accepted exactly when it is "light:" or "group:" followed
   * by an id without ':'; the id is what follows the separator.
   */
  lemma {:induction false} ParseRefIff(ref: string, t: Target)
    ensures ParseRef(ref) == Some(t) <==> ref == Reference(t) && Sep !in t.id
  {
    if ParseRef(ref) == Some(t) {
      var split := Split(ref, Sep);
      assert |split| == 2;
      assert Join(split, Sep) == split[0] + [Sep] + split[1];
    }
    if ref == Reference(t) && Sep !in t.id {
      var parts := [KindName(t.kind), t.id];
      assert Join(parts, Sep) == ref;
      SplitJoin(parts, Sep);
    }
  }

  /** Strings that are not "kind:id" are dropped. */
  lemma NoSeparatorDropped()
    ensures ParseRef("bogus") == None
    ensures ParseRef("light") == None
  {
    SplitNoSep("bogus", Sep);
    SplitNoSep("light", Sep);
  }

  /** More than one separator is dropped, whatever the kind. */
  lemma TooManyPartsDropped()
    ensures ParseRef("room:1:2") == None
  {
    var tail := "1" + [Sep] + "2";
    assert "room:1:2" == "room" + [Sep] + tail;
    SplitPrefix("room", tail, Sep);
    SplitPrefix("1", "2", Sep);
    SplitNoSep("2", Sep);
    assert |Split("room:1:2", Sep)| == 3;
  }

  /**
   * From reference string to request path: "light:" + id writes
   * `/lights/{id}/state`, "group:" + id writes `/groups/{id}/action`, for
   * every id without the separator.
   */
  lemma ReferenceEndpoint(id: string)
    requires Sep !in id
    ensures ParseRef("light:" + id) == Some(Target(LightKind, id))
    ensures ParseRef("group:" + id) == Some(Target(GroupKind, id))
    ensures Endpoint(ParseRef("light:" + id).value) == "/lights/" + id + "/state"
    ensures Endpoint(ParseRef("group:" + id).value) == "/groups/" + id + "/action"
  {
    ParseRefIff("light:" + id, Target(LightKind, id));
    ParseRefIff("group:" + id, Target(GroupKind, id));
  }

  /** Well-formed references are accepted with the id after the separator. */
  lemma WellFormedAccepted()
    ensures ParseRef("light:3") == Some(Target(LightKind, "3"))
    ensures ParseRef("group:0") == Some(Target(GroupKind, "0"))
  {
    ReferenceEndpoint("3");
    assert "light:" + "3" == "light:3";
    ReferenceEndpoint("0");
    assert "group:" + "0" == "group:0";
  }

  /**
   * The targets a list of references selects, in order: the `reduce` of the
   * actions with the bridge request left out.
   */
  function Targets(refs: seq<string>): (ts: seq<Target>)
    ensures |ts| <= |refs|
    decreases |refs|
  {
    if refs == [] then []
    else
      var last := refs[|refs| - 1];
      Targets(refs[..|refs| - 1]) + (if ParseRef(last).Some? then [ParseRef(last).value] else [])
  }

  /** Selection is a homomorphism: order is kept and each reference is judged alone. */
  lemma {:induction false} TargetsAppend(a: seq<string>, b: seq<string>)
    ensures Targets(a + b) == Targets(a) + Targets(b)
    decreases |b|
  {
    if b == [] {
      assert a + b == a;
    } else {
      var b' := b[..|b| - 1];
      assert (a + b)[..|a + b| - 1] == a + b';
      assert (a + b)[|a + b| - 1] == b[|b| - 1];
      TargetsAppend(a, b');
    }
  }

  /** A single reference selects its parsed target, or nothing. */
  lemma TargetsSingle(r: string)
    ensures Targets([r]) == if ParseRef(r).Some? then [ParseRef(r).value] else []
  {
    assert [r][..0] == [];
  }
}
