/**
 The closing pass as it is (deploy/k8s/hack/openapi2jsonschema.py): `additional_properties` updates
 dicts in place, and a schema loaded from YAML may hold one dict in several places. The dicts
 only have to be free of cycles, as the recursion demands: `height` falls along every reference.
 */
module SchemaInPlace {
  import S = SchemaRewrite

  /** `Plain` is a value that holds nothing else. */
  datatype Value = Plain(json: S.Json) | ListOf(items: seq<Value>) | Ref(dict: PyDict)
  datatype Slot = Slot(key: string, value: Value)

  class PyDict {
    var slots: seq<Slot>

    constructor (slots: seq<Slot>)
      ensures this.slots == slots
    {
      this.slots := slots;
    }
  }

  type Heap = map<PyDict, seq<Slot>>
  type Height = PyDict -> nat

  ghost function Snap(dicts: set<PyDict>): (m: Heap)
    reads dicts
    ensures m.Keys == dicts && forall d :: d in dicts ==> m[d] == d.slots
  {
    map d | d in dicts :: d.slots
  }

  ghost function Level(v: Value, height: Height): nat {
    match v
    case Plain(_) => 0
    case ListOf(xs) => MaxLevel(xs, height)
    case Ref(d) => height(d) + 1
  }

  ghost function MaxLevel(xs: seq<Value>, height: Height): (r: nat)
    ensures forall i :: 0 <= i < |xs| ==> Level(xs[i], height) <= r
  {
    if xs == [] then 0
    else
      var rest := MaxLevel(xs[1..], height);
      assert forall i :: 1 <= i < |xs| ==> xs[i] == xs[1..][i - 1];
      if Level(xs[0], height) > rest then Level(xs[0], height) else rest
  }

  ghost predicate Inside(v: Value, dicts: set<PyDict>) {
    match v
    case Plain(json) => !json.Dict? && !json.List?
    case ListOf(xs) => forall i :: 0 <= i < |xs| ==> Inside(xs[i], dicts)
    case Ref(d) => d in dicts
  }

  ghost predicate Sound(m: Heap, height: Height) {
    forall d, i :: d in m && 0 <= i < |m[d]| ==>
      Inside(m[d][i].value, m.Keys) && Level(m[d][i].value, height) <= height(d)
  }

  // ----- what the pass reaches ---------------------------------------------------------------------------

  ghost predicate Reaches(m: Heap, height: Height, d: PyDict, x: PyDict)
    requires Sound(m, height) && d in m
    decreases height(d), 1, 0
  {
    d == x || ReachesBy(m, height, d, x, |m[d]|)
  }

  /** Through one of the first `n` values of `d`. */
  ghost predicate ReachesBy(m: Heap, height: Height, d: PyDict, x: PyDict, n: nat)
    requires Sound(m, height) && d in m && n <= |m[d]|
    decreases height(d), 0, n
  {
    n > 0 && (ReachesBy(m, height, d, x, n - 1) ||
              (m[d][n - 1].value.Ref? && Reaches(m, height, m[d][n - 1].value.dict, x)))
  }

  predicate HasKey(slots: seq<Slot>, key: string) {
    exists i :: 0 <= i < |slots| && slots[i].key == key
  }

  predicate Open(slots: seq<Slot>) {
    HasKey(slots, "properties") && !HasKey(slots, "additionalProperties")
  }

  const NO_MORE := Slot("additionalProperties", Plain(S.Bool(false)))

  ghost function CloseSlots(slots: seq<Slot>): (r: seq<Slot>)
    ensures !Open(r)
  {
    if Open(slots) then
      var r := slots + [NO_MORE];
      assert r[|slots|].key == "additionalProperties";
      r
    else slots
  }

  /** The effect of the pass on all dicts. */
  ghost function Effect(m: Heap, height: Height, d: PyDict, skip: bool): Heap
    requires Sound(m, height) && d in m
  {
    map x | x in m :: if Reaches(m, height, d, x) && !(skip && x == d) then CloseSlots(m[x]) else m[x]
  }

  /** Its effect when `n` of the values of `d` have been visited. */
  ghost function PartEffect(m: Heap, height: Height, d: PyDict, skip: bool, n: nat): Heap
    requires Sound(m, height) && d in m && n <= |m[d]|
  {
    map x | x in m :: if (x == d && !skip) || ReachesBy(m, height, d, x, n) then CloseSlots(m[x]) else m[x]
  }

  ghost predicate Grew(m: Heap, m': Heap) {
    m'.Keys == m.Keys && forall x :: x in m ==> m'[x] == m[x] || (Open(m[x]) && m'[x] == CloseSlots(m[x]))
  }

  lemma GrewSound(m: Heap, m': Heap, height: Height)
    requires Sound(m, height) && Grew(m, m')
    ensures Sound(m', height)
  {
  }

  lemma {:induction false} ReachesDown(m: Heap, height: Height, d: PyDict, x: PyDict, n: nat)
    requires Sound(m, height) && d in m && n <= |m[d]|
    ensures ReachesBy(m, height, d, x, n) ==> height(x) < height(d) && x in m
    decreases height(d), n
  {
    if n > 0 {
      ReachesDown(m, height, d, x, n - 1);
      var v := m[d][n - 1].value;
      if v.Ref? {
        ReachesDown(m, height, v.dict, x, |m[v.dict]|);
        assert Reaches(m, height, v.dict, x) ==> v.dict == x || ReachesBy(m, height, v.dict, x, |m[v.dict]|);
      }
    }
  }

  /** Closing dicts does not change what is reached. */
  lemma {:induction false} SameReach(m: Heap, m': Heap, height: Height, d: PyDict, x: PyDict)
    requires Sound(m, height) && Sound(m', height) && Grew(m, m') && d in m
    ensures Reaches(m', height, d, x) <==> Reaches(m, height, d, x)
    decreases height(d), 1, 0
  {
    SameReachBy(m, m', height, d, x, |m[d]|);
    if |m'[d]| > |m[d]| {
      assert m'[d][|m[d]|] == NO_MORE;
      assert ReachesBy(m', height, d, x, |m'[d]|) <==> ReachesBy(m', height, d, x, |m[d]|);
    }
  }

  lemma {:induction false} SameReachBy(m: Heap, m': Heap, height: Height, d: PyDict, x: PyDict, n: nat)
    requires Sound(m, height) && Sound(m', height) && Grew(m, m') && d in m && n <= |m[d]|
    ensures ReachesBy(m', height, d, x, n) <==> ReachesBy(m, height, d, x, n)
    decreases height(d), 0, n
  {
    if n > 0 {
      SameReachBy(m, m', height, d, x, n - 1);
      var v := m[d][n - 1].value;
      assert m'[d][n - 1] == m[d][n - 1];
      if v.Ref? {
        SameReach(m, m', height, v.dict, x);
      }
    }
  }

  lemma PartGrew(m: Heap, height: Height, d: PyDict, skip: bool, n: nat)
    requires Sound(m, height) && d in m && n <= |m[d]|
    ensures Grew(m, PartEffect(m, height, d, skip, n)) && Sound(PartEffect(m, height, d, skip, n), height)
    ensures PartEffect(m, height, d, skip, n)[d] == if skip then m[d] else CloseSlots(m[d])
  {
    GrewSound(m, PartEffect(m, height, d, skip, n), height);
    ReachesDown(m, height, d, d, n);
  }

  lemma VisitRef(m: Heap, height: Height, d: PyDict, skip: bool, n: nat, c: PyDict, x: PyDict)
    requires Sound(m, height) && d in m && n < |m[d]| && m[d][n].value == Ref(c) && x in m
    requires Sound(PartEffect(m, height, d, skip, n), height) && Grew(m, PartEffect(m, height, d, skip, n))
    ensures PartEffect(m, height, d, skip, n + 1)[x] == Effect(PartEffect(m, height, d, skip, n), height, c, false)[x]
  {
    var part := PartEffect(m, height, d, skip, n);
    SameReach(m, part, height, c, x);
    assert ReachesBy(m, height, d, x, n + 1) <==> ReachesBy(m, height, d, x, n) || Reaches(m, height, c, x);
    assert CloseSlots(CloseSlots(m[x])) == CloseSlots(m[x]);
  }

  /** What visiting a value does. */
  ghost function Visit(m: Heap, height: Height, v: Value): Heap
    requires Sound(m, height) && Inside(v, m.Keys)
  {
    match v
    case Ref(c) => Effect(m, height, c, false)
    case _ => m
  }

  lemma SameMap(a: Heap, b: Heap)
    requires a.Keys == b.Keys && forall x :: x in a ==> a[x] == b[x]
    ensures a == b
  {
  }

  lemma VisitDict(m: Heap, height: Height, d: PyDict, skip: bool, n: nat, c: PyDict)
    requires Sound(m, height) && d in m && n < |m[d]| && m[d][n].value == Ref(c)
    requires Sound(PartEffect(m, height, d, skip, n), height) && Grew(m, PartEffect(m, height, d, skip, n))
    ensures PartEffect(m, height, d, skip, n + 1) == Effect(PartEffect(m, height, d, skip, n), height, c, false)
  {
    var next, now := PartEffect(m, height, d, skip, n + 1), Effect(PartEffect(m, height, d, skip, n), height, c, false);
    forall x | x in m
      ensures next[x] == now[x]
    {
      VisitRef(m, height, d, skip, n, c, x);
    }
    SameMap(next, now);
  }

  /** One visit of a value in a dict of height `bound`. */
  ghost predicate VisitStep(m: Heap, m': Heap, height: Height, v: Value, bound: nat) {
    Sound(m, height) && Inside(v, m.Keys) && Level(v, height) <= bound && m' == Visit(m, height, v)
  }

  lemma VisitOne(m: Heap, height: Height, d: PyDict, skip: bool, n: nat)
    requires Sound(m, height) && d in m && n < |m[d]|
    ensures VisitStep(PartEffect(m, height, d, skip, n), PartEffect(m, height, d, skip, n + 1), height,
                      m[d][n].value, height(d))
  {
    PartGrew(m, height, d, skip, n);
    if m[d][n].value.Ref? {
      VisitDict(m, height, d, skip, n, m[d][n].value.dict);
    }
  }

  /** The slots of a dict that may have been closed. */
  lemma SlotAt(slots: seq<Slot>, skip: bool, n: nat)
    requires n < |if skip then slots else CloseSlots(slots)|
    ensures (if skip then slots else CloseSlots(slots))[n] == if n < |slots| then slots[n] else NO_MORE
  {
  }

  /** Visiting the value in slot `n` of `d`, or in the slot added to it. */
  lemma VisitNext(m: Heap, height: Height, d: PyDict, skip: bool, n: nat, slot: Slot)
    requires Sound(m, height) && d in m && slot == if n < |m[d]| then m[d][n] else NO_MORE
    ensures VisitStep(Visited(m, height, d, skip, n), Visited(m, height, d, skip, n + 1), height, slot.value, height(d))
  {
    if n < |m[d]| {
      VisitOne(m, height, d, skip, n);
    } else {
      PartGrew(m, height, d, skip, |m[d]|);
    }
  }

  /** As PartEffect, when an added slot is visited too. */
  ghost function Visited(m: Heap, height: Height, d: PyDict, skip: bool, n: nat): Heap
    requires Sound(m, height) && d in m
  {
    PartEffect(m, height, d, skip, if n < |m[d]| then n else |m[d]|)
  }

  /** The dicts before the first and after each visit of the first values in these slots of `d`. */
  ghost predicate Visits(trace: seq<Heap>, height: Height, d: PyDict, slots: seq<Slot>) {
    && 0 < |trace| <= |slots| + 1
    && (forall m :: m in trace ==> d in m && m[d] == slots)
    && forall i, j :: 0 <= i && j == i + 1 < |trace| ==>
         VisitStep(trace[i], trace[j], height, slots[i].value, height(d))
  }

  lemma VisitsOn(trace: seq<Heap>, m: Heap, height: Height, d: PyDict, slots: seq<Slot>)
    requires Visits(trace, height, d, slots) && |trace| <= |slots| && d in m && m[d] == slots
    requires VisitStep(trace[|trace| - 1], m, height, slots[|trace| - 1].value, height(d))
    ensures Visits(trace + [m], height, d, slots)
  {
  }

  lemma VisitedSlots(m: Heap, height: Height, d: PyDict, skip: bool, n: nat)
    requires Sound(m, height) && d in m
    ensures Visited(m, height, d, skip, n)[d] == if skip then m[d] else CloseSlots(m[d])
  {
    PartGrew(m, height, d, skip, if n < |m[d]| then n else |m[d]|);
  }

  lemma {:induction false} VisitsUpTo(m: Heap, height: Height, d: PyDict, skip: bool, slots: seq<Slot>, n: nat)
    returns (trace: seq<Heap>)
    requires Sound(m, height) && d in m && slots == (if skip then m[d] else CloseSlots(m[d])) && n <= |slots|
    ensures Visits(trace, height, d, slots) && |trace| == n + 1
    ensures trace[n] == Visited(m, height, d, skip, n) && trace[0] == Visited(m, height, d, skip, 0)
    decreases n
  {
    VisitedSlots(m, height, d, skip, n);
    if n == 0 {
      trace := [Visited(m, height, d, skip, 0)];
    } else {
      var before := VisitsUpTo(m, height, d, skip, slots, n - 1);
      SlotAt(m[d], skip, n - 1);
      VisitNext(m, height, d, skip, n - 1, slots[n - 1]);
      VisitsOn(before, Visited(m, height, d, skip, n), height, d, slots);
      trace := before + [Visited(m, height, d, skip, n)];
    }
  }

  lemma VisitsOf(m: Heap, height: Height, d: PyDict, skip: bool, slots: seq<Slot>) returns (trace: seq<Heap>)
    requires Sound(m, height) && d in m && slots == if skip then m[d] else CloseSlots(m[d])
    ensures Visits(trace, height, d, slots) && |trace| == |slots| + 1
    ensures trace[0] == m[d := slots] && trace[|slots|] == Effect(m, height, d, skip)
  {
    trace := VisitsUpTo(m, height, d, skip, slots, |slots|);
    NoneVisited(m, height, d, skip);
    AllVisited(m, height, d, skip, |slots|);
  }

  lemma NoneVisited(m: Heap, height: Height, d: PyDict, skip: bool)
    requires Sound(m, height) && d in m
    ensures Visited(m, height, d, skip, 0) == m[d := if skip then m[d] else CloseSlots(m[d])]
  {
    SameMap(Visited(m, height, d, skip, 0), m[d := if skip then m[d] else CloseSlots(m[d])]);
  }

  lemma AllVisited(m: Heap, height: Height, d: PyDict, skip: bool, n: nat)
    requires Sound(m, height) && d in m && n >= |m[d]|
    ensures Visited(m, height, d, skip, n) == Effect(m, height, d, skip)
  {
    ReachesDown(m, height, d, d, |m[d]|);
    SameMap(Visited(m, height, d, skip, n), Effect(m, height, d, skip));
  }

  method CloseOne(d: PyDict, skip: bool)
    modifies d
    ensures d.slots == if skip then old(d.slots) else CloseSlots(old(d.slots))
  {
    if HasKey(d.slots, "properties") && !skip {
      if !HasKey(d.slots, "additionalProperties") {
        d.slots := d.slots + [NO_MORE];
      }
    }
  }

  /** The dicts reached through dict values, and no others, are closed; the root only if it is not skipped. */
  method AdditionalProperties(d: PyDict, skip: bool, ghost dicts: set<PyDict>, ghost height: Height)
    requires d in dicts && Sound(Snap(dicts), height)
    modifies dicts
    ensures Snap(dicts) == Effect(old(Snap(dicts)), height, d, skip)
    decreases height(d), 2
  {
    ghost var m := Snap(dicts);
    CloseOne(d, skip);
    assert Snap(dicts) == m[d := d.slots];
    ghost var trace := VisitsOf(m, height, d, skip, d.slots);
    CloseValues(d, dicts, height, trace);
  }

  /** The loop over the values of a dict. */
  method CloseValues(d: PyDict, ghost dicts: set<PyDict>, ghost height: Height, ghost trace: seq<Heap>)
    requires d in dicts && Visits(trace, height, d, d.slots) && |trace| == |d.slots| + 1 && Snap(dicts) == trace[0]
    modifies dicts
    ensures |trace| > 0 && Snap(dicts) == trace[|trace| - 1]
    decreases height(d), 1
  {
    ghost var slots := d.slots;
    var i := 0;
    while i < |d.slots|
      invariant d.slots == slots && i <= |slots| && Snap(dicts) == trace[i]
    {
      ghost var j := i + 1;
      assert VisitStep(trace[i], trace[j], height, slots[i].value, height(d)) && trace[j] in trace;
      CloseValue(d.slots[i].value, dicts, height, height(d));
      i := i + 1;
      assert Snap(dicts) == trace[i] && trace[i][d] == slots;
    }
  }

  method CloseValue(v: Value, ghost dicts: set<PyDict>, ghost height: Height, ghost bound: nat)
    requires Sound(Snap(dicts), height) && Inside(v, dicts) && Level(v, height) <= bound
    modifies dicts
    ensures Snap(dicts) == Visit(old(Snap(dicts)), height, v)
    decreases bound, 0
  {
    if v.Ref? {
      AdditionalProperties(v.dict, false, dicts, height);
    }
  }

  // ----- what a dict looks like as a tree ------------------------------------------------------------------

  ghost function View(m: Heap, height: Height, v: Value): S.Json
    requires Sound(m, height) && Inside(v, m.Keys)
    decreases Level(v, height), v
  {
    match v
    case Plain(json) => json
    case ListOf(xs) => S.List(seq(|xs|, i requires 0 <= i < |xs| => View(m, height, xs[i])))
    case Ref(d) =>
      S.Dict(seq(|m[d]|, i requires 0 <= i < |m[d]| => S.Entry(m[d][i].key, View(m, height, m[d][i].value))))
  }

  // ----- what is left of it when int-or-string dicts are replaced ---------------------------------------------

  lemma SeenDict(es: seq<S.Entry>, q: S.Pass)
    requires q == S.OnValue ==> !S.IntOrString(es)
    ensures var r := S.Seen(S.Dict(es), q);
            && r.Dict? && |r.entries| == |es|
            && forall i :: 0 <= i < |es| ==> r.entries[i] == S.Entry(es[i].key, S.Seen(es[i].value, S.InDict(q)))
  {
    assert S.Replace(S.Dict(es)) == S.Dict(S.ReplaceEntries(es));
    assert q == S.OnValue ==> S.ReplaceValue(S.Dict(es)) == S.Replace(S.Dict(es));
    forall i: nat | i < |es|
      ensures S.ReplaceEntries(es)[i] == S.Entry(es[i].key, S.ReplaceValue(es[i].value))
    {
      S.ReplacedEntry(es, i);
    }
  }

  lemma SeenList(xs: seq<S.Json>, q: S.Pass)
    ensures var r := S.Seen(S.List(xs), q);
            && r.List? && |r.items| == |xs|
            && forall i :: 0 <= i < |xs| ==> r.items[i] == S.Seen(xs[i], S.InList(q))
  {
    forall i: nat | i < |xs| && q == S.OnValue
      ensures S.ReplaceItems(xs)[i] == S.Replace(xs[i])
    {
      S.ReplacedItem(xs, i);
    }
  }

  ghost function Looks(m: Heap, height: Height, v: Value, q: S.Pass): S.Json
    requires Sound(m, height) && Inside(v, m.Keys)
  {
    S.Seen(View(m, height, v), q)
  }

  /** The whole dict is replaced. */
  ghost predicate Hidden(m: Heap, height: Height, d: PyDict, q: S.Pass)
    requires Sound(m, height) && d in m
  {
    q == S.OnValue && S.IntOrString(View(m, height, Ref(d)).entries)
  }

  /** Closing dicts replaces no other dicts. */
  lemma SameHidden(m: Heap, m': Heap, height: Height, d: PyDict, q: S.Pass)
    requires Sound(m, height) && Sound(m', height) && Grew(m, m') && d in m
    ensures Hidden(m', height, d, q) <==> Hidden(m, height, d, q)
  {
    var es, es' := View(m, height, Ref(d)).entries, View(m', height, Ref(d)).entries;
    assert forall i :: 0 <= i < |es| ==>
      && es[i] == S.Entry(m[d][i].key, View(m, height, m[d][i].value))
      && es'[i] == S.Entry(m[d][i].key, View(m', height, m[d][i].value));
    assert |es'| > |es| ==> es'[|es|].key == "additionalProperties";
    SameFormat(es, es');
  }

  lemma SameFormat(es: seq<S.Entry>, es': seq<S.Entry>)
    requires |es| <= |es'| <= |es| + 1 && (|es'| > |es| ==> es'[|es|].key == "additionalProperties")
    requires forall i :: 0 <= i < |es| ==>
        es'[i].key == es[i].key && (es'[i].value == es[i].value || (!es'[i].value.Text? && !es[i].value.Text?))
    ensures S.IntOrString(es') <==> S.IntOrString(es)
  {
    S.HasIsMember(es, "format");
    S.HasIsMember(es', "format");
    if S.Has(es, "format") {
      assert S.Has(es', "format");
      var i := S.FirstPlace(es, "format");
      var j := S.FirstPlace(es', "format");
      assert i == j;
    }
  }

  /** The dict `y` shows somewhere in `v`. */
  ghost predicate Shows(m: Heap, height: Height, v: Value, y: PyDict, q: S.Pass)
    requires Sound(m, height) && Inside(v, m.Keys)
    decreases Level(v, height), v
  {
    match v
    case Plain(_) => false
    case ListOf(xs) => exists i :: 0 <= i < |xs| && Shows(m, height, xs[i], y, S.InList(q))
    case Ref(d) =>
      && !Hidden(m, height, d, q)
      && (y == d || exists i :: 0 <= i < |m[d]| && Shows(m, height, m[d][i].value, y, S.InDict(q)))
  }

  lemma {:induction false} ShowsBelow(m: Heap, height: Height, v: Value, y: PyDict, q: S.Pass)
    requires Sound(m, height) && Inside(v, m.Keys) && Shows(m, height, v, y, q)
    ensures y in m && height(y) < Level(v, height)
    decreases Level(v, height), v
  {
    match v
    case ListOf(xs) =>
      var i :| 0 <= i < |xs| && Shows(m, height, xs[i], y, S.InList(q));
      ShowsBelow(m, height, xs[i], y, S.InList(q));
    case Ref(d) =>
      if y != d {
        var i :| 0 <= i < |m[d]| && Shows(m, height, m[d][i].value, y, S.InDict(q));
        ShowsBelow(m, height, m[d][i].value, y, S.InDict(q));
      }
  }

  /** No dict that shows in the value was changed. */
  ghost predicate Untouched(m: Heap, m': Heap, height: Height, v: Value, q: S.Pass)
    requires Sound(m, height) && m'.Keys == m.Keys && Inside(v, m.Keys)
  {
    forall y :: y in m && Shows(m, height, v, y, q) ==> m'[y] == m[y]
  }

  /** A value looks the same afterwards exactly when no dict that shows in it was changed. */
  lemma {:induction false} SameLooks(m: Heap, m': Heap, height: Height, v: Value, q: S.Pass)
    requires Sound(m, height) && Sound(m', height) && Grew(m, m') && Inside(v, m.Keys)
    ensures Looks(m', height, v, q) == Looks(m, height, v, q) <==> Untouched(m, m', height, v, q)
    decreases Level(v, height), v
  {
    match v
    case Plain(_) =>
    case ListOf(xs) =>
      forall i | 0 <= i < |xs|
        ensures Untouched(m, m', height, xs[i], S.InList(q)) <==>
                Looks(m', height, xs[i], S.InList(q)) == Looks(m, height, xs[i], S.InList(q))
      {
        SameLooks(m, m', height, xs[i], S.InList(q));
      }
      SameItems(m, m', height, xs, q);
      UntouchedList(m, m', height, xs, q);
    case Ref(d) =>
      SameHidden(m, m', height, d, q);
      if !Hidden(m, height, d, q) {
        forall i | 0 <= i < |m[d]|
          ensures Untouched(m, m', height, m[d][i].value, S.InDict(q)) <==>
                  Looks(m', height, m[d][i].value, S.InDict(q)) == Looks(m, height, m[d][i].value, S.InDict(q))
        {
          SameLooks(m, m', height, m[d][i].value, S.InDict(q));
        }
        SameSlots(m, m', height, d, q);
        UntouchedDict(m, m', height, d, q);
      }
  }

  lemma UntouchedList(m: Heap, m': Heap, height: Height, xs: seq<Value>, q: S.Pass)
    requires Sound(m, height) && m'.Keys == m.Keys && Inside(ListOf(xs), m.Keys)
    ensures Untouched(m, m', height, ListOf(xs), q) <==>
            forall i :: 0 <= i < |xs| ==> Untouched(m, m', height, xs[i], S.InList(q))
  {
    if Untouched(m, m', height, ListOf(xs), q) {
      forall i, y | 0 <= i < |xs| && y in m && Shows(m, height, xs[i], y, S.InList(q))
        ensures m'[y] == m[y]
      {
        assert Shows(m, height, ListOf(xs), y, q);
      }
    }
  }

  lemma UntouchedDict(m: Heap, m': Heap, height: Height, d: PyDict, q: S.Pass)
    requires Sound(m, height) && m'.Keys == m.Keys && d in m && !Hidden(m, height, d, q)
    ensures Untouched(m, m', height, Ref(d), q) <==>
            m'[d] == m[d] && forall i :: 0 <= i < |m[d]| ==> Untouched(m, m', height, m[d][i].value, S.InDict(q))
  {
    if Untouched(m, m', height, Ref(d), q) {
      assert Shows(m, height, Ref(d), d, q);
      forall i, y | 0 <= i < |m[d]| && y in m && Shows(m, height, m[d][i].value, y, S.InDict(q))
        ensures m'[y] == m[y]
      {
        assert Shows(m, height, Ref(d), y, q);
      }
    }
  }

  lemma SameItems(m: Heap, m': Heap, height: Height, xs: seq<Value>, q: S.Pass)
    requires Sound(m, height) && Sound(m', height) && m'.Keys == m.Keys && Inside(ListOf(xs), m.Keys)
    ensures Looks(m', height, ListOf(xs), q) == Looks(m, height, ListOf(xs), q) <==>
            forall i :: 0 <= i < |xs| ==> Looks(m', height, xs[i], S.InList(q)) == Looks(m, height, xs[i], S.InList(q))
  {
    SeenList(View(m', height, ListOf(xs)).items, q);
    SeenList(View(m, height, ListOf(xs)).items, q);
    var a, b := Looks(m', height, ListOf(xs), q).items, Looks(m, height, ListOf(xs), q).items;
    assert forall i :: 0 <= i < |xs| ==>
      a[i] == Looks(m', height, xs[i], S.InList(q)) && b[i] == Looks(m, height, xs[i], S.InList(q));
  }

  lemma SameSlots(m: Heap, m': Heap, height: Height, d: PyDict, q: S.Pass)
    requires Sound(m, height) && Sound(m', height) && Grew(m, m') && d in m
    requires !Hidden(m, height, d, q) && !Hidden(m', height, d, q)
    ensures Looks(m', height, Ref(d), q) == Looks(m, height, Ref(d), q) <==>
            && m'[d] == m[d]
            && forall i :: 0 <= i < |m[d]| ==>
                 Looks(m', height, m[d][i].value, S.InDict(q)) == Looks(m, height, m[d][i].value, S.InDict(q))
  {
    SeenDict(View(m', height, Ref(d)).entries, q);
    SeenDict(View(m, height, Ref(d)).entries, q);
    var a, b := Looks(m', height, Ref(d), q).entries, Looks(m, height, Ref(d), q).entries;
    if m'[d] == m[d] {
      assert forall i :: 0 <= i < |m[d]| ==>
        && a[i] == S.Entry(m[d][i].key, Looks(m', height, m[d][i].value, S.InDict(q)))
        && b[i] == S.Entry(m[d][i].key, Looks(m, height, m[d][i].value, S.InDict(q)));
    } else {
      assert |a| != |b|;
    }
  }

  // ----- the pass on dicts against the pass on trees ----------------------------------------------------------

  lemma ViewKeys(m: Heap, height: Height, c: PyDict)
    requires Sound(m, height) && c in m
    ensures S.Open(View(m, height, Ref(c)).entries) <==> Open(m[c])
  {
    var es := View(m, height, Ref(c)).entries;
    assert forall i :: 0 <= i < |m[c]| ==> es[i].key == m[c][i].key;
    S.HasIsMember(es, "properties");
    S.HasIsMember(es, "additionalProperties");
  }

  /** What a closed dict looks like, against the closed tree, both before the int-or-string pass. */
  lemma ClosedEntries(m: Heap, m': Heap, height: Height, c: PyDict, skip: bool)
    requires Sound(m, height) && Sound(m', height) && m'.Keys == m.Keys && c in m
    requires m'[c] == if skip then m[c] else CloseSlots(m[c])
    ensures var now := View(m', height, Ref(c)).entries;
            var closed := S.Close(View(m, height, Ref(c)), skip).entries;
            && |m[c]| <= |now| == |closed|
            && (forall i :: 0 <= i < |m[c]| ==>
                  && now[i] == S.Entry(m[c][i].key, View(m', height, m[c][i].value))
                  && closed[i] == S.Entry(m[c][i].key, S.Close(View(m, height, m[c][i].value), false)))
            && (forall i :: |m[c]| <= i < |now| ==> now[i] == closed[i] == S.NO_MORE)
  {
    var es, now := View(m, height, Ref(c)).entries, View(m', height, Ref(c)).entries;
    var closed := S.Close(S.Dict(es), skip).entries;
    ViewKeys(m, height, c);
    forall i | 0 <= i < |m[c]|
      ensures closed[i] == S.Entry(m[c][i].key, S.Close(View(m, height, m[c][i].value), false))
      ensures now[i] == S.Entry(m[c][i].key, View(m', height, m[c][i].value))
    {
      S.ClosedEntry(es, i);
      assert m'[c][i] == m[c][i];
    }
    if |now| > |es| {
      assert m'[c][|m[c]|] == NO_MORE;
      assert View(m', height, NO_MORE.value) == S.Bool(false);
      assert now[|es|] == S.Entry(NO_MORE.key, View(m', height, NO_MORE.value)) == closed[|es|];
    }
  }

  lemma ClosedDict(m: Heap, m': Heap, height: Height, c: PyDict, skip: bool, q: S.Pass)
    requires Sound(m, height) && Sound(m', height) && m'.Keys == m.Keys && c in m
    requires m'[c] == if skip then m[c] else CloseSlots(m[c])
    requires !Hidden(m, height, c, q) && !Hidden(m', height, c, q)
    ensures Looks(m', height, Ref(c), q) == S.Seen(S.Close(View(m, height, Ref(c)), skip), q) <==>
            forall i :: 0 <= i < |m[c]| ==> SlotCloses(m, m', height, m[c][i].value, S.InDict(q))
  {
    var now, closed := View(m', height, Ref(c)).entries, S.Close(View(m, height, Ref(c)), skip).entries;
    ClosedEntries(m, m', height, c, skip);
    S.ClosedShape(View(m, height, Ref(c)).entries, skip);
    SeenDict(now, q);
    SeenDict(closed, q);
    EntriesAgree(S.Seen(S.Dict(now), q).entries, S.Seen(S.Dict(closed), q).entries, |m[c]|);
  }

  lemma EntriesAgree(a: seq<S.Entry>, b: seq<S.Entry>, n: nat)
    requires n <= |a| == |b| && (forall i :: n <= i < |a| ==> a[i] == b[i])
    requires forall i :: 0 <= i < n ==> a[i].key == b[i].key
    ensures a == b <==> forall i :: 0 <= i < n ==> a[i].value == b[i].value
  {
    if forall i :: 0 <= i < n ==> a[i].value == b[i].value {
      assert forall i :: 0 <= i < |a| ==> a[i] == b[i];
    }
  }

  /** The value looks as if closed on the tree. */
  ghost predicate SlotCloses(m: Heap, m': Heap, height: Height, v: Value, q: S.Pass)
    requires Sound(m, height) && Sound(m', height) && m'.Keys == m.Keys && Inside(v, m.Keys)
  {
    Looks(m', height, v, q) == S.Seen(S.Close(View(m, height, v), false), q)
  }

  /** Reached through dict values, and not hidden on the way. */
  ghost predicate Sees(m: Heap, height: Height, c: PyDict, x: PyDict, q: S.Pass)
    requires Sound(m, height) && c in m
    decreases height(c)
  {
    && !Hidden(m, height, c, q)
    && (c == x ||
        exists i :: 0 <= i < |m[c]| && m[c][i].value.Ref? && Sees(m, height, m[c][i].value.dict, x, S.InDict(q)))
  }

  lemma {:induction false} SeesDown(m: Heap, height: Height, c: PyDict, x: PyDict, q: S.Pass)
    requires Sound(m, height) && c in m && Sees(m, height, c, x, q)
    ensures x in m && height(x) <= height(c)
    decreases height(c)
  {
    if c != x {
      var i :| 0 <= i < |m[c]| && m[c][i].value.Ref? && Sees(m, height, m[c][i].value.dict, x, S.InDict(q));
      SeesDown(m, height, m[c][i].value.dict, x, S.InDict(q));
    }
  }

  /** No dict that was changed shows in a list that `c` leads to through dict values. */
  ghost predicate ListsUntouched(m: Heap, m': Heap, height: Height, c: PyDict, q: S.Pass)
    requires Sound(m, height) && m'.Keys == m.Keys && c in m
  {
    forall x, i :: x in m && Sees(m, height, c, x, q) && 0 <= i < |m[x]| && m[x][i].value.ListOf? ==>
      Untouched(m, m', height, m[x][i].value, S.InDict(q))
  }

  ghost predicate SlotUntouched(m: Heap, m': Heap, height: Height, v: Value, q: S.Pass)
    requires Sound(m, height) && m'.Keys == m.Keys && Inside(v, m.Keys)
  {
    match v
    case Plain(_) => true
    case ListOf(_) => Untouched(m, m', height, v, q)
    case Ref(e) => ListsUntouched(m, m', height, e, q)
  }

  lemma ListsStep(m: Heap, m': Heap, height: Height, c: PyDict, q: S.Pass)
    requires Sound(m, height) && m'.Keys == m.Keys && c in m && !Hidden(m, height, c, q)
    ensures ListsUntouched(m, m', height, c, q) <==>
            forall i :: 0 <= i < |m[c]| ==> SlotUntouched(m, m', height, m[c][i].value, S.InDict(q))
  {
    if ListsUntouched(m, m', height, c, q) {
      forall i | 0 <= i < |m[c]|
        ensures SlotUntouched(m, m', height, m[c][i].value, S.InDict(q))
      {
        var v := m[c][i].value;
        assert Sees(m, height, c, c, q);
        if v.Ref? {
          assert forall x :: x in m && Sees(m, height, v.dict, x, S.InDict(q)) ==> Sees(m, height, c, x, q);
        }
      }
    }
    if forall i :: 0 <= i < |m[c]| ==> SlotUntouched(m, m', height, m[c][i].value, S.InDict(q)) {
      forall x, j | x in m && Sees(m, height, c, x, q) && 0 <= j < |m[x]| && m[x][j].value.ListOf?
        ensures Untouched(m, m', height, m[x][j].value, S.InDict(q))
      {
        if x == c {
          assert SlotUntouched(m, m', height, m[c][j].value, S.InDict(q));
        } else {
          var i :| 0 <= i < |m[c]| && m[c][i].value.Ref? && Sees(m, height, m[c][i].value.dict, x, S.InDict(q));
          assert SlotUntouched(m, m', height, m[c][i].value, S.InDict(q));
        }
      }
    }
  }

  lemma {:induction false} ReachesOne(m: Heap, height: Height, c: PyDict, i: nat, x: PyDict, n: nat)
    requires Sound(m, height) && c in m && i < n <= |m[c]| && m[c][i].value.Ref?
    requires Reaches(m, height, m[c][i].value.dict, x)
    ensures ReachesBy(m, height, c, x, n)
    decreases n
  {
    if i < n - 1 {
      ReachesOne(m, height, c, i, x, n - 1);
    }
  }

  lemma {:induction false} ReachesSplit(m: Heap, height: Height, c: PyDict, x: PyDict, n: nat) returns (i: nat)
    requires Sound(m, height) && c in m && n <= |m[c]| && ReachesBy(m, height, c, x, n)
    ensures i < n && m[c][i].value.Ref? && Reaches(m, height, m[c][i].value.dict, x)
    decreases n
  {
    if ReachesBy(m, height, c, x, n - 1) {
      i := ReachesSplit(m, height, c, x, n - 1);
    } else {
      i := n - 1;
    }
  }

  lemma {:induction false} ReachesOn(m: Heap, height: Height, d: PyDict, c: PyDict, e: PyDict)
    requires Sound(m, height) && d in m && c in m && Reaches(m, height, d, c) && Reaches(m, height, c, e)
    ensures Reaches(m, height, d, e)
    decreases height(d)
  {
    if d != c {
      var i := ReachesSplit(m, height, d, c, |m[d]|);
      ReachesOn(m, height, m[d][i].value.dict, c, e);
      ReachesOne(m, height, d, i, e, |m[d]|);
    }
  }

  lemma HiddenCloses(m: Heap, m': Heap, height: Height, c: PyDict, skip: bool, q: S.Pass)
    requires Sound(m, height) && Sound(m', height) && Grew(m, m') && c in m && Hidden(m, height, c, q)
    ensures Looks(m', height, Ref(c), q) == S.Seen(S.Close(View(m, height, Ref(c)), skip), q)
    ensures ListsUntouched(m, m', height, c, q)
  {
    SameHidden(m, m', height, c, q);
    S.ClosedShape(View(m, height, Ref(c)).entries, skip);
  }

  lemma {:induction false} ClosedView(m: Heap, height: Height, d: PyDict, skip: bool, c: PyDict, q: S.Pass)
    requires Sound(m, height) && d in m && c in m && Reaches(m, height, d, c)
    requires Sound(Effect(m, height, d, skip), height) && Grew(m, Effect(m, height, d, skip))
    ensures Looks(Effect(m, height, d, skip), height, Ref(c), q) ==
            S.Seen(S.Close(View(m, height, Ref(c)), skip && c == d), q) <==>
            ListsUntouched(m, Effect(m, height, d, skip), height, c, q)
    decreases height(c)
  {
    var m' := Effect(m, height, d, skip);
    if Hidden(m, height, c, q) {
      HiddenCloses(m, m', height, c, skip && c == d, q);
    } else {
      forall i: nat | i < |m[c]|
        ensures SlotCloses(m, m', height, m[c][i].value, S.InDict(q)) <==>
                SlotUntouched(m, m', height, m[c][i].value, S.InDict(q))
      {
        var v := m[c][i].value;
        match v {
          case Plain(_) =>
          case ListOf(_) =>
            SameLooks(m, m', height, v, S.InDict(q));
          case Ref(e) =>
            ReachesOne(m, height, c, i, e, |m[c]|);
            ReachesOn(m, height, d, c, e);
            ReachesDown(m, height, d, c, |m[d]|);
            ClosedView(m, height, d, skip, e, S.InDict(q));
        }
      }
      SameHidden(m, m', height, c, q);
      ListsStep(m, m', height, c, q);
      ClosedDict(m, m', height, c, skip && c == d, q);
    }
  }

  /** No open dict is reached through dict values and also shows in a list. */
  ghost predicate ListsApart(m: Heap, height: Height, d: PyDict, q: S.Pass)
    requires Sound(m, height) && d in m
  {
    forall x, i, y | x in m && y in m && Sees(m, height, d, x, q) && Reaches(m, height, d, y) ::
      0 <= i < |m[x]| && m[x][i].value.ListOf? && Shows(m, height, m[x][i].value, y, S.InDict(q)) ==> !Open(m[y])
  }

  lemma ApartIsUntouched(m: Heap, height: Height, d: PyDict, skip: bool, q: S.Pass)
    requires Sound(m, height) && d in m
    ensures ListsApart(m, height, d, q) <==> ListsUntouched(m, Effect(m, height, d, skip), height, d, q)
  {
    var m' := Effect(m, height, d, skip);
    forall x, i, y | x in m && y in m && Sees(m, height, d, x, q) && 0 <= i < |m[x]|
      && m[x][i].value.ListOf? && Shows(m, height, m[x][i].value, y, S.InDict(q))
      ensures m'[y] == m[y] <==> !(Reaches(m, height, d, y) && Open(m[y]))
    {
      ShowsBelow(m, height, m[x][i].value, y, S.InDict(q));
      SeesDown(m, height, d, x, q);
    }
  }

  lemma InPlaceLooksClosed(m: Heap, height: Height, d: PyDict, skip: bool, q: S.Pass)
    requires Sound(m, height) && d in m
    ensures Sound(Effect(m, height, d, skip), height)
    ensures Looks(Effect(m, height, d, skip), height, Ref(d), q) ==
            S.Seen(S.Close(View(m, height, Ref(d)), skip), q) <==>
            ListsApart(m, height, d, q)
  {
    GrewSound(m, Effect(m, height, d, skip), height);
    ClosedView(m, height, d, skip, d, q);
    ApartIsUntouched(m, height, d, skip, q);
  }

  /** In place or on a copy of the tree: the result looks the same exactly when no open dict is
      shared between a list and a place that dict values lead to. */
  lemma InPlaceIsClose(m: Heap, height: Height, d: PyDict, skip: bool)
    requires Sound(m, height) && d in m
    ensures Sound(Effect(m, height, d, skip), height)
    ensures View(Effect(m, height, d, skip), height, Ref(d)) == S.Close(View(m, height, Ref(d)), skip) <==>
            ListsApart(m, height, d, S.NoPass)
  {
    InPlaceLooksClosed(m, height, d, skip, S.NoPass);
  }

  /** The schema written after the update in place is the one described on trees exactly when no open
      dict is shared in this way where it shows: a dict that is replaced as a whole hides what is in it. */
  lemma InPlaceIsWritten(m: Heap, height: Height, d: PyDict, skip: bool)
    requires Sound(m, height) && d in m
    ensures Sound(Effect(m, height, d, skip), height)
    ensures S.Replace(View(Effect(m, height, d, skip), height, Ref(d))) == S.Written(View(m, height, Ref(d)), skip) <==>
            ListsApart(m, height, d, S.OnItem)
    ensures ListsApart(m, height, d, S.NoPass) ==> ListsApart(m, height, d, S.OnItem)
  {
    InPlaceLooksClosed(m, height, d, skip, S.OnItem);
    InPlaceIsClose(m, height, d, skip);
  }

  ghost function SharedHeap(d: PyDict, e: PyDict): Heap {
    map[d := [Slot("a", Ref(e)), Slot("b", ListOf([Ref(e)]))], e := [Slot("properties", Plain(S.Null))]]
  }

  /** A dict in an int-or-string dict: what it holds is hidden from the written schema. */
  ghost function HidingHeap(d: PyDict, e: PyDict, o: PyDict): Heap {
    map[d := [Slot("a", Ref(e)), Slot("b", Ref(o))],
        e := [Slot("properties", Plain(S.Null))],
        o := [Slot("format", Plain(S.Text("int-or-string"))), Slot("c", ListOf([Ref(e)]))]]
  }

  /** Such sharing happens: one open dict under a key and in a list, as a YAML alias makes it. Here
      the dict is closed in the list too, where the pass on a tree would leave it open. */
  lemma SharedDict(d: PyDict, e: PyDict, height: Height)
    requires height(e) < height(d)
    ensures var m := SharedHeap(d, e);
            && Sound(m, height) && !ListsApart(m, height, d, S.NoPass) && Sound(Effect(m, height, d, false), height)
            && View(Effect(m, height, d, false), height, Ref(d)) != S.Close(View(m, height, Ref(d)), false)
  {
    var m := SharedHeap(d, e);
    SharedSound(d, e, height);
    SharedReaches(m, d, e, height);
    assert Shows(m, height, m[d][1].value.items[0], e, S.NoPass);
    assert m[e][0].key == "properties";
    InPlaceIsClose(m, height, d, false);
  }

  lemma SharedSound(d: PyDict, e: PyDict, height: Height)
    requires height(e) < height(d)
    ensures Sound(SharedHeap(d, e), height)
  {
    assert [Ref(e)][1..] == [];
    assert MaxLevel([Ref(e)], height) == Level(Ref(e), height);
    assert Level(ListOf([Ref(e)]), height) == height(e) + 1;
  }

  lemma SharedReaches(m: Heap, d: PyDict, e: PyDict, height: Height)
    requires Sound(m, height) && d in m && |m[d]| == 2 && m[d][0].value == Ref(e)
    ensures Reaches(m, height, d, d) && Reaches(m, height, d, e)
  {
    assert ReachesBy(m, height, d, e, 1);
    assert ReachesBy(m, height, d, e, 2);
  }

  /** So the second condition is strictly weaker: here the in-place result differs from the tree's, and
      the schema written does not. */
  lemma HiddenSharing(d: PyDict, e: PyDict, o: PyDict, height: Height)
    requires height(e) < height(o) < height(d)
    ensures var m := HidingHeap(d, e, o);
            Sound(m, height) && !ListsApart(m, height, d, S.NoPass) && ListsApart(m, height, d, S.OnItem)
  {
    var m := HidingHeap(d, e, o);
    HidingSound(d, e, o, height);
    SharedReaches(m, d, e, height);
    assert m[d][1].value == Ref(o) && Sees(m, height, o, o, S.NoPass) && Sees(m, height, d, o, S.NoPass);
    assert Shows(m, height, m[o][1].value.items[0], e, S.NoPass);
    assert m[e][0].key == "properties";
    OnlyTwoSeen(d, e, o, height);
  }

  lemma OnlyTwoSeen(d: PyDict, e: PyDict, o: PyDict, height: Height)
    requires height(e) < height(o) < height(d) && Sound(HidingHeap(d, e, o), height)
    ensures forall x :: Sees(HidingHeap(d, e, o), height, d, x, S.OnItem) ==> x == d || x == e
  {
    var m := HidingHeap(d, e, o);
    var es := View(m, height, Ref(o)).entries;
    assert es[0] == S.Entry("format", View(m, height, m[o][0].value));
    assert View(m, height, m[o][0].value) == S.Text("int-or-string");
    assert Hidden(m, height, o, S.OnValue);
    forall x | Sees(m, height, d, x, S.OnItem) && x != d
      ensures x == e
    {
      var i :| 0 <= i < |m[d]| && m[d][i].value.Ref? && Sees(m, height, m[d][i].value.dict, x, S.OnValue);
      assert i == 0 || i == 1;
      assert !Sees(m, height, o, x, S.OnValue);
      assert !m[e][0].value.Ref?;
    }
  }

  lemma HidingSound(d: PyDict, e: PyDict, o: PyDict, height: Height)
    requires height(e) < height(o) < height(d)
    ensures Sound(HidingHeap(d, e, o), height)
  {
    assert [Ref(e)][1..] == [];
    assert MaxLevel([Ref(e)], height) == Level(Ref(e), height);
    assert Level(ListOf([Ref(e)]), height) == height(e) + 1;
  }
}
