/** Removing storage-set selectors from a cloud config
    (scripts/_storage_placement_rollout.py), over arbitrary JSON trees. */
module Selectors {
  import opened Text
  import opened CanonicalJson

  const SET_KEYS := {"root_storage_set", "ephemeral_storage_set", "persistent_storage_set", "storage_set"}

  /** A selector key with a value in use, anywhere in the tree. */
  predicate ContainsSelector(v: Json) {
    match v
    case Obj(fields) =>
      || (exists k | k in fields :: k in SET_KEYS && fields[k] != Null && fields[k] != Str(""))
      || (exists k | k in v.fields :: ContainsSelector(v.fields[k]))
    case Arr(items) => exists i | 0 <= i < |items| :: ContainsSelector(v.items[i])
    case _ => false
  }

  /** strip, as the tree it leaves. */
  function StripSelectors(v: Json): Json {
    match v
    case Obj(fields) => Obj(map k | k in v.fields && k !in SET_KEYS :: StripSelectors(v.fields[k]))
    case Arr(items) => Arr(StripItems(items))
    case _ => v
  }

  function StripItems(items: seq<Json>): (r: seq<Json>)
    ensures |r| == |items| && forall i | 0 <= i < |items| :: r[i] == StripSelectors(items[i])
  {
    if items == [] then [] else [StripSelectors(items[0])] + StripItems(items[1..])
  }

  /** A selector key, with whatever value, anywhere in the tree. */
  predicate HasSetKey(v: Json) {
    match v
    case Obj(fields) => (exists k | k in fields :: k in SET_KEYS) || (exists k | k in v.fields :: HasSetKey(v.fields[k]))
    case Arr(items) => exists i | 0 <= i < |items| :: HasSetKey(v.items[i])
    case _ => false
  }

  lemma {:induction false} SelectorIsSetKey(v: Json)
    ensures ContainsSelector(v) ==> HasSetKey(v)
  {
    match v
    case Obj(fields) =>
      forall k | k in fields ensures ContainsSelector(fields[k]) ==> HasSetKey(fields[k]) {
        SelectorIsSetKey(v.fields[k]);
      }
    case Arr(items) =>
      forall i | 0 <= i < |items| ensures ContainsSelector(items[i]) ==> HasSetKey(items[i]) {
        SelectorIsSetKey(v.items[i]);
      }
    case _ =>
  }

  lemma {:induction false} StrippedHasNone(v: Json)
    ensures !HasSetKey(StripSelectors(v))
  {
    match v
    case Obj(fields) =>
      var r := StripSelectors(v).fields;
      forall k | k in r ensures k !in SET_KEYS && !HasSetKey(r[k]) {
        StrippedHasNone(v.fields[k]);
      }
    case Arr(items) =>
      var r := StripSelectors(v).items;
      forall i | 0 <= i < |r| ensures !HasSetKey(r[i]) {
        StrippedHasNone(v.items[i]);
      }
    case _ =>
  }

  /** The check that follows the removal cannot fail. */
  lemma {:induction false} StripIsComplete(v: Json)
    ensures !ContainsSelector(StripSelectors(v))
  {
    StrippedHasNone(v);
    SelectorIsSetKey(StripSelectors(v));
  }

  /** The removal leaves a tree alone exactly when it holds no selector key. */
  lemma {:induction false} UnchangedIff(v: Json)
    ensures StripSelectors(v) == v <==> !HasSetKey(v)
  {
    if StripSelectors(v) == v {
      StrippedHasNone(v);
    }
    if !HasSetKey(v) {
      match v
      case Obj(fields) =>
        forall k | k in fields ensures StripSelectors(fields[k]) == fields[k] && k !in SET_KEYS {
          UnchangedIff(v.fields[k]);
        }
        assert StripSelectors(v).fields == fields;
      case Arr(items) =>
        forall i | 0 <= i < |items| ensures StripSelectors(items[i]) == items[i] {
          UnchangedIff(v.items[i]);
        }
        assert StripSelectors(v).items == items;
      case _ =>
    }
  }

  lemma {:induction false} StripIsIdempotent(v: Json)
    ensures StripSelectors(StripSelectors(v)) == StripSelectors(v)
  {
    StrippedHasNone(v);
    UnchangedIff(StripSelectors(v));
  }

  // ------------------------------------------------------------------ paths

  datatype Hop = Field(key: string) | Index(i: nat)

  /** The value a path leads to. */
  function At(v: Json, path: seq<Hop>): Option<Json>
    decreases |path|
  {
    if path == [] then Some(v)
    else
      match path[0]
      case Field(key) => if v.Obj? && key in v.fields then At(v.fields[key], path[1..]) else None
      case Index(i) => if v.Arr? && i < |v.items| then At(v.items[i], path[1..]) else None
  }

  predicate ThroughSelector(path: seq<Hop>) { exists i | 0 <= i < |path| :: path[i].Field? && path[i].key in SET_KEYS }

  /** Every path through a selector key is gone; every other path leads to what it
      led to before, itself stripped. */
  lemma {:induction false} StripAlongPaths(v: Json, path: seq<Hop>)
    ensures At(StripSelectors(v), path) ==
      if ThroughSelector(path) || At(v, path).None? then None else Some(StripSelectors(At(v, path).value))
    decreases |path|
  {
    if path == [] {
    } else {
      var rest := path[1..];
      assert ThroughSelector(path) <==> (path[0].Field? && path[0].key in SET_KEYS) || ThroughSelector(rest) by {
        assert forall i | 0 <= i < |rest| :: rest[i] == path[i + 1];
        if ThroughSelector(path) {
          var i :| 0 <= i < |path| && path[i].Field? && path[i].key in SET_KEYS;
          assert i > 0 ==> path[i] == rest[i - 1];
        }
      }
      hide ThroughSelector;
      match path[0]
      case Field(key) =>
        if v.Obj? && key in v.fields {
          StripAlongPaths(v.fields[key], rest);
        }
      case Index(i) =>
        if v.Arr? && i < |v.items| {
          StripAlongPaths(v.items[i], rest);
        }
    }
  }

  /** A string, number, truth value or null off every selector path is unchanged. */
  lemma {:induction false} LeavesStay(v: Json, path: seq<Hop>)
    requires !ThroughSelector(path) && At(v, path).Some? && !At(v, path).value.Obj? && !At(v, path).value.Arr?
    ensures At(StripSelectors(v), path) == At(v, path)
  {
    StripAlongPaths(v, path);
  }

  // -------------------------------------------------- what the check looks for

  /** The path ends at one of the four selector keys, with a value in use. */
  predicate ShowsSelector(v: Json, path: seq<Hop>) {
    && path != [] && path[|path| - 1].Field?
    && path[|path| - 1].key in ["root_storage_set", "ephemeral_storage_set", "persistent_storage_set", "storage_set"]
    && At(v, path).Some? && At(v, path).value != Null && At(v, path).value != Str("")
  }

  lemma AtHead(v: Json, hop: Hop, rest: seq<Hop>)
    ensures At(v, [hop] + rest) ==
      match hop
      case Field(key) => if v.Obj? && key in v.fields then At(v.fields[key], rest) else None
      case Index(i) => if v.Arr? && i < |v.items| then At(v.items[i], rest) else None
  {
    assert ([hop] + rest)[1..] == rest;
  }

  lemma ShowsDeeper(v: Json, hop: Hop, rest: seq<Hop>, inner: Json)
    requires At(v, [hop] + rest) == At(inner, rest) && rest != []
    ensures ShowsSelector(v, [hop] + rest) <==> ShowsSelector(inner, rest)
  {
    assert ([hop] + rest)[|rest|] == rest[|rest| - 1];
  }

  lemma {:induction false} SelectorFound(v: Json) returns (path: seq<Hop>)
    requires ContainsSelector(v)
    ensures ShowsSelector(v, path)
  {
    match v
    case Obj(fields) =>
      if k :| k in fields && k in SET_KEYS && fields[k] != Null && fields[k] != Str("") {
        AtHead(v, Field(k), []);
        assert [Field(k)] + [] == [Field(k)];
        path := [Field(k)];
      } else {
        var k :| k in v.fields && ContainsSelector(v.fields[k]);
        var rest := SelectorFound(v.fields[k]);
        AtHead(v, Field(k), rest);
        ShowsDeeper(v, Field(k), rest, v.fields[k]);
        path := [Field(k)] + rest;
      }
    case Arr(items) =>
      var i :| 0 <= i < |items| && ContainsSelector(v.items[i]);
      var rest := SelectorFound(v.items[i]);
      AtHead(v, Index(i), rest);
      ShowsDeeper(v, Index(i), rest, v.items[i]);
      path := [Index(i)] + rest;
  }

  lemma {:induction false} FoundSelector(v: Json, path: seq<Hop>)
    requires ShowsSelector(v, path)
    ensures ContainsSelector(v)
    decreases |path|
  {
    var hop, rest := path[0], path[1..];
    assert path == [hop] + rest;
    AtHead(v, hop, rest);
    if rest == [] {
      var k := hop.key;
      assert At(v.fields[k], rest) == Some(v.fields[k]);
      assert k in SET_KEYS;
    } else {
      match hop
      case Field(key) =>
        ShowsDeeper(v, hop, rest, v.fields[key]);
        FoundSelector(v.fields[key], rest);
      case Index(i) =>
        ShowsDeeper(v, hop, rest, v.items[i]);
        FoundSelector(v.items[i], rest);
    }
  }

  /** contains_selector: some path ends at a selector key with a value in use. */
  lemma SelectorIff(v: Json)
    ensures ContainsSelector(v) <==> exists path :: ShowsSelector(v, path)
  {
    hide ShowsSelector;
    if ContainsSelector(v) { var path := SelectorFound(v); }
    if path :| ShowsSelector(v, path) { FoundSelector(v, path); }
  }
}
