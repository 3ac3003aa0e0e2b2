/**
 The two rewrites of a schema before it is written (deploy/k8s/hack/openapi2jsonschema.py).
 `additional_properties` closes dicts that have `properties`; `replace_int_or_string` rebuilds
 the tree with the int-or-string dicts replaced. This module is about trees as values;
 SchemaInPlace is about the first rewrite as an update of shared mutable dicts.
 */
module SchemaRewrite {
  import opened Wrappers

  /** A dict keeps its insertion order, which the written file shows. */
  datatype Json =
    | Null | Bool(b: bool) | Number(text: string) | Text(s: string)
    | List(items: seq<Json>) | Dict(entries: seq<Entry>)
  datatype Entry = Entry(key: string, value: Json)

  function Lookup(es: seq<Entry>, key: string): Option<Json> {
    if es == [] then None
    else if es[0].key == key then Some(es[0].value)
    else Lookup(es[1..], key)
  }

  predicate Has(es: seq<Entry>, key: string) {
    Lookup(es, key).Some?
  }

  // ----- the closing pass -----------------------------------------------------------------------

  predicate Open(es: seq<Entry>) {
    Has(es, "properties") && !Has(es, "additionalProperties")
  }

  const NO_MORE := Entry("additionalProperties", Bool(false))

  function Close(data: Json, skip: bool): Json
    decreases data, 1
  {
    match data
    case Dict(es) => if Open(es) && !skip then Dict(CloseEntries(es) + [NO_MORE]) else Dict(CloseEntries(es))
    case _ => data
  }

  function CloseEntries(es: seq<Entry>): (r: seq<Entry>)
    ensures |r| == |es|
    decreases es, 0
  {
    if es == [] then [] else [Entry(es[0].key, Close(es[0].value, false))] + CloseEntries(es[1..])
  }

  // ----- the int-or-string pass -----------------------------------------------------------------

  predicate IntOrString(es: seq<Entry>) {
    Lookup(es, "format") == Some(Text("int-or-string"))
  }

  const EITHER_TYPE :=
    Dict([Entry("oneOf", List([Dict([Entry("type", Text("string"))]), Dict([Entry("type", Text("integer"))])]))])

  /** Only dicts are rebuilt: anything else has no `items` and is returned as it is. */
  function Replace(data: Json): Json
    decreases data, 0
  {
    match data
    case Dict(es) => Dict(ReplaceEntries(es))
    case _ => data
  }

  /** What becomes of a value in a dict. The root and the items of a list are never replaced. */
  function ReplaceValue(v: Json): Json
    decreases v, 1
  {
    match v
    case Dict(es) => if IntOrString(es) then EITHER_TYPE else Replace(v)
    case List(xs) => List(ReplaceItems(xs))
    case _ => v
  }

  function ReplaceEntries(es: seq<Entry>): (r: seq<Entry>)
    ensures |r| == |es|
    decreases es, 0
  {
    if es == [] then [] else [Entry(es[0].key, ReplaceValue(es[0].value))] + ReplaceEntries(es[1..])
  }

  function ReplaceItems(xs: seq<Json>): (r: seq<Json>)
    ensures |r| == |xs|
    decreases xs, 0
  {
    if xs == [] then [] else [Replace(xs[0])] + ReplaceItems(xs[1..])
  }

  // ----- lookups through the passes -----------------------------------------------------------------

  lemma {:induction false} LookupClosed(es: seq<Entry>, key: string)
    ensures Lookup(CloseEntries(es), key) ==
            match Lookup(es, key) case Some(v) => Some(Close(v, false)) case None => None
  {
    if es != [] {
      LookupClosed(es[1..], key);
    }
  }

  lemma {:induction false} LookupReplaced(es: seq<Entry>, key: string)
    ensures Lookup(ReplaceEntries(es), key) ==
            match Lookup(es, key) case Some(v) => Some(ReplaceValue(v)) case None => None
  {
    if es != [] {
      LookupReplaced(es[1..], key);
    }
  }

  lemma {:induction false} LookupAppended(es: seq<Entry>, e: Entry, key: string)
    ensures Lookup(es + [e], key) ==
            if Has(es, key) then Lookup(es, key) else if e.key == key then Some(e.value) else None
  {
    if es == [] {
      assert es + [e] == [e];
    } else {
      assert (es + [e])[1..] == es[1..] + [e];
      LookupAppended(es[1..], e, key);
    }
  }

  lemma {:induction false} ClosedEntry(es: seq<Entry>, i: nat)
    requires i < |es|
    ensures CloseEntries(es)[i] == Entry(es[i].key, Close(es[i].value, false))
  {
    if i > 0 {
      ClosedEntry(es[1..], i - 1);
    }
  }

  lemma {:induction false} HasIsMember(es: seq<Entry>, key: string)
    ensures Has(es, key) <==> exists i :: 0 <= i < |es| && es[i].key == key
  {
    if es != [] {
      HasIsMember(es[1..], key);
      assert forall i :: 1 <= i < |es| ==> es[i] == es[1..][i - 1];
    }
  }

  /** Where a key is found: at its first place. */
  lemma {:induction false} FirstPlace(es: seq<Entry>, key: string) returns (i: nat)
    requires Has(es, key)
    ensures i < |es| && es[i].key == key && Lookup(es, key) == Some(es[i].value)
    ensures forall j :: 0 <= j < i ==> es[j].key != key
  {
    if es[0].key == key {
      i := 0;
    } else {
      var n := FirstPlace(es[1..], key);
      i := n + 1;
      assert forall j :: 1 <= j < i ==> es[j] == es[1..][j - 1];
    }
  }

  /** What a closed dict holds: the closed values, and `false` for additionalProperties if it was open. */
  lemma LookupInClosed(es: seq<Entry>, skip: bool, key: string)
    ensures Lookup(Close(Dict(es), skip).entries, key) ==
            match Lookup(es, key)
            case Some(v) => Some(Close(v, false))
            case None => if key == "additionalProperties" && Open(es) && !skip then Some(Bool(false)) else None
  {
    LookupClosed(es, key);
    LookupAppended(CloseEntries(es), NO_MORE, key);
  }

  lemma ClosedShape(es: seq<Entry>, skip: bool)
    ensures IntOrString(Close(Dict(es), skip).entries) <==> IntOrString(es)
    ensures !skip ==> !Open(Close(Dict(es), skip).entries)
    ensures skip ==> (Open(Close(Dict(es), skip).entries) <==> Open(es))
  {
    LookupInClosed(es, skip, "format");
    LookupInClosed(es, skip, "properties");
    LookupInClosed(es, skip, "additionalProperties");
  }

  lemma ReplacedShape(es: seq<Entry>)
    ensures IntOrString(ReplaceEntries(es)) <==> IntOrString(es)
    ensures Open(ReplaceEntries(es)) <==> Open(es)
  {
    LookupReplaced(es, "format");
    LookupReplaced(es, "properties");
    LookupReplaced(es, "additionalProperties");
  }

  lemma {:induction false} CloseEntriesAppend(es: seq<Entry>, fs: seq<Entry>)
    ensures CloseEntries(es + fs) == CloseEntries(es) + CloseEntries(fs)
  {
    if es == [] {
      assert es + fs == fs;
    } else {
      assert (es + fs)[1..] == es[1..] + fs;
      CloseEntriesAppend(es[1..], fs);
    }
  }

  lemma {:induction false} ReplaceEntriesAppend(es: seq<Entry>, fs: seq<Entry>)
    ensures ReplaceEntries(es + fs) == ReplaceEntries(es) + ReplaceEntries(fs)
  {
    if es == [] {
      assert es + fs == fs;
    } else {
      assert (es + fs)[1..] == es[1..] + fs;
      ReplaceEntriesAppend(es[1..], fs);
    }
  }

  lemma FixedParts()
    ensures CloseEntries([NO_MORE]) == [NO_MORE] && ReplaceEntries([NO_MORE]) == [NO_MORE]
    ensures ReplaceValue(EITHER_TYPE) == EITHER_TYPE && Close(EITHER_TYPE, false) == EITHER_TYPE
  {
    var s, i := Dict([Entry("type", Text("string"))]), Dict([Entry("type", Text("integer"))]);
    assert ReplaceEntries([]) == [] && CloseEntries([]) == [];
    assert ReplaceEntries(s.entries) == s.entries && ReplaceEntries(i.entries) == i.entries;
    assert [s, i][1..] == [i] && ReplaceItems([]) == [];
    assert ReplaceItems([i]) == [i] && ReplaceItems([s, i]) == [s, i];
    var one := Entry("oneOf", List([s, i]));
    assert Lookup([one][1..], "format") == None && Lookup([one][1..], "properties") == None;
    assert ReplaceEntries([one]) == [one] && CloseEntries([one]) == [one];
  }

  // ----- each pass is idempotent -------------------------------------------------------------------------

  lemma {:induction false} CloseIdempotent(data: Json, skip: bool)
    ensures Close(Close(data, skip), skip) == Close(data, skip)
    decreases data, 1
  {
    if data.Dict? {
      var es := data.entries;
      CloseEntriesIdempotent(es);
      ClosedShape(es, skip);
      FixedParts();
      CloseEntriesAppend(CloseEntries(es), [NO_MORE]);
    }
  }

  lemma {:induction false} CloseEntriesIdempotent(es: seq<Entry>)
    ensures CloseEntries(CloseEntries(es)) == CloseEntries(es)
    decreases es, 0
  {
    if es != [] {
      CloseIdempotent(es[0].value, false);
      CloseEntriesIdempotent(es[1..]);
    }
  }

  lemma {:induction false} ReplaceIdempotent(data: Json)
    ensures Replace(Replace(data)) == Replace(data)
    decreases data, 0
  {
    if data.Dict? {
      ReplaceEntriesIdempotent(data.entries);
    }
  }

  lemma {:induction false} ReplaceValueIdempotent(v: Json)
    ensures ReplaceValue(ReplaceValue(v)) == ReplaceValue(v)
    decreases v, 1
  {
    match v
    case Dict(es) =>
      FixedParts();
      ReplacedShape(es);
      ReplaceIdempotent(v);
    case List(xs) =>
      ReplaceItemsIdempotent(xs);
    case _ =>
  }

  lemma {:induction false} ReplaceEntriesIdempotent(es: seq<Entry>)
    ensures ReplaceEntries(ReplaceEntries(es)) == ReplaceEntries(es)
    decreases es, 0
  {
    if es != [] {
      ReplaceValueIdempotent(es[0].value);
      ReplaceEntriesIdempotent(es[1..]);
    }
  }

  lemma {:induction false} ReplaceItemsIdempotent(xs: seq<Json>)
    ensures ReplaceItems(ReplaceItems(xs)) == ReplaceItems(xs)
    decreases xs, 0
  {
    if xs != [] {
      ReplaceIdempotent(xs[0]);
      ReplaceItemsIdempotent(xs[1..]);
    }
  }

  // ----- the passes commute ------------------------------------------------------------------------------

  lemma {:induction false} PassesCommute(data: Json, skip: bool)
    ensures Replace(Close(data, skip)) == Close(Replace(data), skip)
    decreases data, 0
  {
    if data.Dict? {
      var es := data.entries;
      EntriesCommute(es);
      ReplacedShape(es);
      FixedParts();
      ReplaceEntriesAppend(CloseEntries(es), [NO_MORE]);
    }
  }

  lemma {:induction false} ValuesCommute(v: Json)
    ensures ReplaceValue(Close(v, false)) == Close(ReplaceValue(v), false)
    decreases v, 1
  {
    if v.Dict? {
      FixedParts();
      ClosedShape(v.entries, false);
      PassesCommute(v, false);
    }
  }

  lemma {:induction false} EntriesCommute(es: seq<Entry>)
    ensures ReplaceEntries(CloseEntries(es)) == CloseEntries(ReplaceEntries(es))
    decreases es, 0
  {
    if es != [] {
      ValuesCommute(es[0].value);
      EntriesCommute(es[1..]);
    }
  }

  // ----- the written schema --------------------------------------------------------------------------------

  /** `write_schema_file` before it prints. */
  function Written(schema: Json, skip: bool): Json {
    Replace(Close(schema, skip))
  }

  /** Writing a written schema again changes nothing. */
  lemma WrittenIsStable(schema: Json, skip: bool)
    ensures Written(Written(schema, skip), skip) == Written(schema, skip)
  {
    PassesCommute(schema, skip);
    PassesCommute(Written(schema, skip), skip);
    ReplaceIdempotent(schema);
    CloseIdempotent(Replace(schema), skip);
    ReplaceIdempotent(Close(schema, skip));
  }

  /** The value reached from `data` by following keys, through dicts only. */
  function At(data: Json, path: seq<string>): Option<Json>
    decreases path
  {
    if path == [] then Some(data)
    else if data.Dict? && Has(data.entries, path[0]) then At(Lookup(data.entries, path[0]).value, path[1..])
    else None
  }

  /** The keys of a dict, in their order. */
  function Keys(es: seq<Entry>): seq<string> {
    seq(|es|, i requires 0 <= i < |es| => es[i].key)
  }

  /** A dict gets the key additionalProperties at its end if it has properties and lacks that key,
      unless it is skipped; anything else is as it was. */
  lemma ClosedKeys(v: Json, skip: bool)
    ensures if !v.Dict? then Close(v, skip) == v else
            Close(v, skip).Dict? && Keys(Close(v, skip).entries) == Keys(v.entries) +
            if !skip && "properties" in Keys(v.entries) && "additionalProperties" !in Keys(v.entries)
            then ["additionalProperties"] else []
  {
    if v.Dict? {
      var es := v.entries;
      HasIsMember(es, "properties");
      HasIsMember(es, "additionalProperties");
      assert forall key :: key in Keys(es) <==> exists i :: 0 <= i < |es| && es[i].key == key by {
        assert forall i :: 0 <= i < |es| ==> Keys(es)[i] == es[i].key;
      }
      forall i: nat | i < |es|
        ensures CloseEntries(es)[i].key == es[i].key
      {
        ClosedEntry(es, i);
      }
      assert Keys(CloseEntries(es)) == Keys(es);
      assert Keys(CloseEntries(es) + [NO_MORE]) == Keys(es) + ["additionalProperties"];
    }
  }

  /** The closing pass, path by path: every value that was there is still there, closed, so no
      value of additionalProperties is overwritten; and the only new paths lead to a `false` for
      additionalProperties in a dict that was open. */
  lemma {:induction false} CloseAt(data: Json, skip: bool, path: seq<string>)
    ensures var was := At(data, path);
            var now := At(Close(data, skip), path);
            && (was.Some? ==> now == Some(Close(was.value, skip && path == [])))
            && (was.None? && now.Some? ==>
                  && path != [] && path[|path| - 1] == "additionalProperties" && now == Some(Bool(false))
                  && var holder := At(data, path[..|path| - 1]);
                     && holder.Some? && holder.value.Dict? && Open(holder.value.entries)
                     && (skip ==> |path| > 1))
    decreases path
  {
    if path != [] && data.Dict? {
      LookupInClosed(data.entries, skip, path[0]);
      match Lookup(data.entries, path[0]) {
        case Some(v) =>
          CloseAt(v, false, path[1..]);
          if |path| > 1 {
            assert path[1..][..|path| - 2] == path[..|path| - 1][1..];
          }
        case None =>
          if |path| == 1 {
            assert path[..0] == [];
          }
      }
    }
  }

  /** No open dict and no int-or-string dict is left in a written schema, wherever dict values
      lead to; only the root can stay open, if it is skipped, and only the root can stay int-or-string. */
  lemma {:induction false} WrittenIsClosed(schema: Json, skip: bool, path: seq<string>)
    requires At(Written(schema, skip), path).Some? && At(Written(schema, skip), path).value.Dict?
    ensures var es := At(Written(schema, skip), path).value.entries;
            && ((path == [] && skip) || !Open(es))
            && (path == [] || !IntOrString(es))
    decreases path
  {
    if path == [] {
      ClosedShape(schema.entries, skip);
      ReplacedShape(Close(schema, skip).entries);
    } else {
      var c := Close(schema, skip);
      LookupReplaced(c.entries, path[0]);
      LookupInClosed(schema.entries, skip, path[0]);
      var v := Lookup(c.entries, path[0]).value;
      var was := Lookup(schema.entries, path[0]);
      if v.Dict? {
        ClosedShape(was.value.entries, false);
        if IntOrString(v.entries) {
          EitherIsDone(path[1..]);
        } else {
          ReplacedShape(v.entries);
          WrittenIsClosed(was.value, false, path[1..]);
        }
      } else {
        assert false;
      }
    }
  }

  lemma EitherIsDone(path: seq<string>)
    requires At(EITHER_TYPE, path).Some? && At(EITHER_TYPE, path).value.Dict?
    ensures path == [] && !Open(EITHER_TYPE.entries) && !IntOrString(EITHER_TYPE.entries)
  {
    var es := EITHER_TYPE.entries;
    assert Lookup(es[1..], "properties") == None && Lookup(es[1..], "format") == None;
    assert forall key :: Lookup(es[1..], key) == None;
    assert forall key :: Has(es, key) ==> Lookup(es, key).value.List?;
  }

  // ----- the int-or-string pass, place by place -----------------------------------------------------------------

  /** How the int-or-string pass meets a value: not at all, as the root or an item of a list, or as a
      value in a dict. */
  datatype Pass = NoPass | OnItem | OnValue

  function InDict(q: Pass): Pass {
    if q == NoPass then NoPass else OnValue
  }

  function InList(q: Pass): Pass {
    if q == OnValue then OnItem else NoPass
  }

  function Seen(j: Json, q: Pass): Json {
    match q
    case NoPass => j
    case OnItem => Replace(j)
    case OnValue => ReplaceValue(j)
  }

  /** A step into a value: to a key of a dict or to a place in a list. */
  datatype Hop = Key(key: string) | Place(i: nat)

  function Follow(data: Json, path: seq<Hop>): Option<Json>
    decreases path
  {
    if path == [] then Some(data)
    else if data.Dict? && path[0].Key? && Has(data.entries, path[0].key) then
      Follow(Lookup(data.entries, path[0].key).value, path[1..])
    else if data.List? && path[0].Place? && path[0].i < |data.items| then Follow(data.items[path[0].i], path[1..])
    else None
  }

  /** How the pass that meets a value as `q` meets what a path leads to. */
  function Along(q: Pass, path: seq<Hop>): Pass
    decreases path
  {
    if path == [] then q else Along(if path[0].Key? then InDict(q) else InList(q), path[1..])
  }

  /** A dict is replaced if it is a value in a dict, has the format int-or-string, and the pass gets to it. */
  predicate Replaced(data: Json, q: Pass, path: seq<Hop>) {
    var v := Follow(data, path);
    Along(q, path) == OnValue && v.Some? && v.value.Dict? && IntOrString(v.value.entries)
  }

  /** What becomes of a value, apart from what is in it. */
  predicate Becomes(v: Json, q: Pass, w: Json) {
    match v
    case Dict(es) =>
      if q == OnValue && IntOrString(es) then
        && w.Dict? && |w.entries| == 1 && w.entries[0].key == "oneOf"
        && w.entries[0].value == List([Dict([Entry("type", Text("string"))]), Dict([Entry("type", Text("integer"))])])
      else w.Dict? && Keys(w.entries) == Keys(es)
    case List(xs) => w.List? && |w.items| == |xs|
    case _ => w == v
  }

  lemma SeenBecomes(v: Json, q: Pass)
    ensures Becomes(v, q, Seen(v, q))
  {
    if v.Dict? {
      var es := v.entries;
      forall i: nat | i < |es|
        ensures ReplaceEntries(es)[i].key == es[i].key
      {
        ReplacedEntry(es, i);
      }
      assert Keys(ReplaceEntries(es)) == Keys(es);
      assert Replace(v) == Dict(ReplaceEntries(es));
      assert ReplaceValue(v) == if IntOrString(es) then EITHER_TYPE else Replace(v);
    }
  }

  /** Whatever is not in a replaced dict keeps its place, and there becomes what the pass makes of it. */
  lemma {:induction false} SeenAt(data: Json, q: Pass, path: seq<Hop>)
    requires forall n :: 0 <= n < |path| ==> !Replaced(data, q, path[..n])
    ensures var v, w := Follow(data, path), Follow(Seen(data, q), path);
            && (v.Some? <==> w.Some?)
            && (v.Some? ==> w.value == Seen(v.value, Along(q, path)))
    decreases path
  {
    if path != [] {
      var h, rest := path[0], path[1..];
      assert !Replaced(data, q, path[..0]) && path[..0] == [];
      var next := if h.Key? then InDict(q) else InList(q);
      forall n | 0 <= n < |rest| && Follow(data, [h]).Some?
        ensures !Replaced(Follow(data, [h]).value, next, rest[..n])
      {
        assert path[..n + 1][1..] == rest[..n] && path[..n + 1][0] == h && [h][1..] == [];
        assert Follow(data, path[..n + 1]) == Follow(Follow(data, [h]).value, rest[..n]);
      }
      assert [h][1..] == [];
      SeenBecomes(data, q);
      if data.Dict? && h.Key? {
        var es, key := data.entries, h.key;
        LookupReplaced(es, key);
        assert Replace(data) == Dict(ReplaceEntries(es));
        assert ReplaceValue(data) == if IntOrString(es) then EITHER_TYPE else Replace(data);
        assert Seen(data, q) == if q == NoPass then data else Dict(ReplaceEntries(es));
        if Has(es, key) {
          assert Follow(data, [h]) == Some(Lookup(es, key).value);
          SeenAt(Lookup(es, key).value, next, rest);
        }
      } else if data.List? && h.Place? && h.i < |data.items| {
        if q == OnValue {
          ReplacedItem(data.items, h.i);
        }
        assert Follow(data, [h]) == Some(data.items[h.i]);
        SeenAt(data.items[h.i], next, rest);
      }
    }
  }

  /** The int-or-string pass, path by path. Outside replaced dicts keys and their order, lengths of lists and
      all other values stay as they are; a replaced dict becomes the choice between a string and an integer;
      and where the pass does not get to, nothing changes at all. */
  lemma ReplaceAt(data: Json, path: seq<Hop>)
    requires forall n :: 0 <= n < |path| ==> !Replaced(data, OnItem, path[..n])
    ensures var v, w := Follow(data, path), Follow(Replace(data), path);
            && (v.Some? <==> w.Some?)
            && (v.Some? ==> Becomes(v.value, Along(OnItem, path), w.value))
            && (Along(OnItem, path) == NoPass ==> w == v)
  {
    SeenAt(data, OnItem, path);
    if Follow(data, path).Some? {
      SeenBecomes(Follow(data, path).value, Along(OnItem, path));
    }
  }

  // ----- the loops of replace_int_or_string -------------------------------------------------------------------

  /** Dicts hold each key once, here and further down. */
  predicate DistinctKeys(data: Json) {
    match data
    case Dict(es) =>
      && (forall i, j :: 0 <= i < j < |es| ==> es[i].key != es[j].key)
      && (forall i :: 0 <= i < |es| ==> DistinctKeys(es[i].value))
    case List(xs) => forall i :: 0 <= i < |xs| ==> DistinctKeys(xs[i])
    case _ => true
  }

  /** `new[k] = v` */
  function Put(es: seq<Entry>, e: Entry): (r: seq<Entry>)
    ensures (forall i :: 0 <= i < |es| ==> es[i].key != e.key) ==> r == es + [e]
  {
    if es == [] then [e]
    else if es[0].key == e.key then [e] + es[1..]
    else [es[0]] + Put(es[1..], e)
  }

  lemma {:induction false} ReplacedEntry(es: seq<Entry>, i: nat)
    requires i < |es|
    ensures ReplaceEntries(es)[i] == Entry(es[i].key, ReplaceValue(es[i].value))
  {
    if i > 0 {
      ReplacedEntry(es[1..], i - 1);
    }
  }

  lemma {:induction false} ReplacedItem(xs: seq<Json>, i: nat)
    requires i < |xs|
    ensures ReplaceItems(xs)[i] == Replace(xs[i])
  {
    if i > 0 {
      ReplacedItem(xs[1..], i - 1);
    }
  }

  lemma ReplacedNext(es: seq<Entry>, i: nat)
    requires i < |es|
    ensures ReplaceEntries(es[..i + 1]) == ReplaceEntries(es[..i]) + [Entry(es[i].key, ReplaceValue(es[i].value))]
  {
    ReplaceEntriesAppend(es[..i], [es[i]]);
    assert es[..i + 1] == es[..i] + [es[i]];
  }

  lemma {:induction false} ItemsNext(xs: seq<Json>, i: nat)
    requires i < |xs|
    ensures ReplaceItems(xs[..i + 1]) == ReplaceItems(xs[..i]) + [Replace(xs[i])]
  {
    if i == 0 {
      assert xs[..1] == [xs[0]];
    } else {
      ItemsNext(xs[1..], i - 1);
      assert xs[1..][..i] == xs[..i + 1][1..] && xs[1..][..i - 1] == xs[..i][1..];
    }
  }

  method ReplaceIntOrString(data: Json) returns (r: Json)
    requires DistinctKeys(data)
    ensures r == Replace(data)
    decreases data, 1
  {
    if !data.Dict? {
      return data;
    }
    var es, i := data.entries, 0;
    var rebuilt: seq<Entry> := [];
    assert es[..0] == [];
    while i < |es|
      invariant i <= |es| && rebuilt == ReplaceEntries(es[..i])
    {
      var v := es[i].value;
      var w := v;
      if v.Dict? {
        if IntOrString(v.entries) {
          w := EITHER_TYPE;
        } else {
          w := ReplaceIntOrString(v);
        }
      } else if v.List? {
        w := ReplaceList(v.items);
      }
      forall j | 0 <= j < i
        ensures rebuilt[j].key != es[i].key
      {
        ReplacedEntry(es[..i], j);
      }
      ReplacedNext(es, i);
      rebuilt := Put(rebuilt, Entry(es[i].key, w));
      i := i + 1;
    }
    assert es[..i] == es;
    r := Dict(rebuilt);
  }

  method ReplaceList(xs: seq<Json>) returns (r: Json)
    requires DistinctKeys(List(xs))
    ensures r == List(ReplaceItems(xs))
    decreases xs, 2
  {
    var i := 0;
    var rebuilt: seq<Json> := [];
    assert xs[..0] == [];
    while i < |xs|
      invariant i <= |xs| && rebuilt == ReplaceItems(xs[..i])
    {
      var x := ReplaceIntOrString(xs[i]);
      ItemsNext(xs, i);
      rebuilt := rebuilt + [x];
      i := i + 1;
    }
    assert xs[..i] == xs;
    r := List(rebuilt);
  }
}
