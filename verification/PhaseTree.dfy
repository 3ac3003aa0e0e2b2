/**
 Wrapping the kubeadm workflow (pkg/cmd/init.go): WrapPhase puts a status update before every
 run of a phase tree. The wrapped run finds out its full name only when it runs, from a slice of
 parent phases made while wrapping. Such slices are views of shared arrays, and `append` writes
 into the array in place when there is room; so the model has a store of arrays.
 */
module PhaseTree {
  import opened Wrappers

  datatype ClusterState =
    | Undefined | Stopped | Started | Initializing | Stabilizing | Running | Stopping | Cleaning | Failed

  function Rank(s: ClusterState): nat {
    match s
    case Undefined => 0 case Stopped => 1 case Started => 2 case Initializing => 3 case Stabilizing => 4
    case Running => 5 case Stopping => 6 case Cleaning => 7 case Failed => 8
  }

  predicate Stable(s: ClusterState) {
    s == Running || s == Stopped || s == Failed || s == Undefined
  }

  /** A phase: its name, its Run function if any (a number stands for it), and its sub-phases;
      `nested` is false when the slice of sub-phases is nil. */
  datatype Phase = Phase(name: string, run: Option<nat>, nested: bool, phases: seq<Phase>)

  // ----- Go slices of parent phases --------------------------------------------------------------

  /** The arrays allocated so far; of a parent phase only the name is ever read. */
  type Store = seq<seq<string>>

  datatype Slice = Slice(arr: nat, len: nat)

  /** How `append` grows a full slice: the new capacity it aims at, for each length. Go goes from none
      to one and then doubles, but may round up; all results are for an arbitrary rule. */
  type Growth = nat -> nat

  function Grown(grow: Growth, len: nat): (cap: nat)
    ensures cap > len
  {
    if grow(len) > len then grow(len) else len + 1
  }

  /** No room to spare before the third element: so with Go's rule, where it goes 1, 2, 4. */
  predicate Tight(grow: Growth) {
    Grown(grow, 0) == 1 && Grown(grow, 1) == 2
  }

  predicate IsSlice(st: Store, sl: Slice) {
    sl.arr < |st| && sl.len <= |st[sl.arr]|
  }

  function Contents(st: Store, sl: Slice): seq<string>
    requires IsSlice(st, sl)
  {
    st[sl.arr][..sl.len]
  }

  /** `append(sl, x)`: in place if there is room, else into a new array. */
  function Append(grow: Growth, st: Store, sl: Slice, x: string): (r: (Store, Slice))
    requires IsSlice(st, sl)
    ensures IsSlice(r.0, r.1) && Contents(r.0, r.1) == Contents(st, sl) + [x]
  {
    var cells := st[sl.arr];
    if sl.len < |cells| then
      (st[sl.arr := cells[sl.len := x]], Slice(sl.arr, sl.len + 1))
    else
      var bigger := cells + [x] + seq(Grown(grow, sl.len) - sl.len - 1, _ => "");
      (st + [bigger], Slice(|st|, sl.len + 1))
  }

  // ----- wrapping ----------------------------------------------------------------------------------

  /** The closure put in place of Run: what it calls, and what it captured. */
  datatype Closure = Closure(run: nat, name: string, parents: Slice, state: ClusterState)

  datatype Wrapped = Wrapped(name: string, run: Option<Closure>, phases: seq<Wrapped>)

  function Wrap(grow: Growth, st: Store, p: Phase, state: ClusterState, parents: Slice): (r: (Store, Wrapped))
    requires IsSlice(st, parents)
    ensures |st| <= |r.0| && forall a :: 0 <= a < |st| ==> |r.0[a]| == |st[a]|
    decreases p, 1
  {
    var run := if p.run.None? then None else Some(Closure(p.run.value, p.name, parents, state));
    if !p.nested then (st, Wrapped(p.name, run, [])) else
    var (st', newParents) := Append(grow, st, parents, p.name);
    var (st'', subs) := WrapAll(grow, st', p.phases, state, newParents);
    (st'', Wrapped(p.name, run, subs))
  }

  function WrapAll(grow: Growth, st: Store, ps: seq<Phase>, state: ClusterState, parents: Slice)
    : (r: (Store, seq<Wrapped>))
    requires IsSlice(st, parents)
    ensures |st| <= |r.0| && forall a :: 0 <= a < |st| ==> |r.0[a]| == |st[a]|
    decreases ps, 0
  {
    if ps == [] then (st, []) else
    var (st', w) := Wrap(grow, st, ps[0], state, parents);
    var (st'', ws) := WrapAll(grow, st', ps[1..], state, parents);
    (st'', [w] + ws)
  }

  /** WrapPhase(p, state, nil): a fresh empty slice of parents. */
  function WrapTop(grow: Growth, p: Phase, state: ClusterState): (Store, Wrapped) {
    Wrap(grow, [[]], p, state, Slice(0, 0))
  }

  /** PhaseName, evaluated when the wrapped run is called. */
  function PhaseName(st: Store, name: string, parents: Slice): string
    decreases parents.len
  {
    if parents.len == 0 || !IsSlice(st, parents) then name
    else PhaseName(st, st[parents.arr][parents.len - 1], Slice(parents.arr, parents.len - 1)) + "/" + name
  }

  // ----- running -----------------------------------------------------------------------------------

  /** Which phases are skipped, by full path; with a phase everything below it is skipped. */
  type Skips = seq<string> -> bool

  /** The runs of a phase tree in the order the workflow performs them. */
  function Runs(p: Phase, path: seq<string>, skip: Skips): seq<nat>
    decreases p, 1
  {
    if skip(path + [p.name]) then [] else
    (if p.run.None? then [] else [p.run.value])
    + (if !p.nested then [] else RunsAll(p.phases, path + [p.name], skip))
  }

  function RunsAll(ps: seq<Phase>, path: seq<string>, skip: Skips): seq<nat>
    decreases ps, 0
  {
    if ps == [] then [] else Runs(ps[0], path, skip) + RunsAll(ps[1..], path, skip)
  }

  /** One call of a wrapped run: a status update with this state and name, then the old run. */
  datatype Step = Step(state: ClusterState, name: string, run: nat)

  function Steps(st: Store, w: Wrapped, path: seq<string>, skip: Skips): seq<Step>
    decreases w, 1
  {
    if skip(path + [w.name]) then [] else OwnSteps(st, w) + StepsAll(st, w.phases, path + [w.name], skip)
  }

  function OwnSteps(st: Store, w: Wrapped): seq<Step> {
    if w.run.None? then [] else
    [Step(w.run.value.state, PhaseName(st, w.run.value.name, w.run.value.parents), w.run.value.run)]
  }

  function StepsAll(st: Store, ws: seq<Wrapped>, path: seq<string>, skip: Skips): seq<Step>
    decreases ws, 0
  {
    if ws == [] then [] else Steps(st, ws[0], path, skip) + StepsAll(st, ws[1..], path, skip)
  }

  function RunsOf(steps: seq<Step>): seq<nat> {
    seq(|steps|, i requires 0 <= i < |steps| => steps[i].run)
  }

  ghost predicate AllIn(steps: seq<Step>, state: ClusterState) {
    forall i :: 0 <= i < |steps| ==> steps[i].state == state
  }

  lemma RunsOfConcat(xs: seq<Step>, ys: seq<Step>, state: ClusterState)
    ensures RunsOf(xs + ys) == RunsOf(xs) + RunsOf(ys)
    ensures AllIn(xs, state) && AllIn(ys, state) ==> AllIn(xs + ys, state)
  {
  }

  /** For every tree and every set of skipped phases: the wrapped tree performs the runs of the
      original in the original order, each in a step of its own with one status update, and every
      update carries the state the tree was wrapped with. `now` is whatever store there is when
      the workflow runs. */
  lemma {:induction false} WrappingPreservesRuns(
    grow: Growth, st: Store, p: Phase, state: ClusterState, parents: Slice, path: seq<string>, skip: Skips, now: Store)
    requires IsSlice(st, parents)
    ensures var w := Wrap(grow, st, p, state, parents).1;
            && w.name == p.name
            && RunsOf(Steps(now, w, path, skip)) == Runs(p, path, skip)
            && AllIn(Steps(now, w, path, skip), state)
    decreases p, 1
  {
    var w, full := Wrap(grow, st, p, state, parents).1, path + [p.name];
    if p.nested {
      var (st', newParents) := Append(grow, st, parents, p.name);
      WrappingPreservesAllRuns(grow, st', p.phases, state, newParents, full, skip, now);
    }
    if !skip(full) {
      var own, below := OwnSteps(now, w), StepsAll(now, w.phases, full, skip);
      assert Steps(now, w, path, skip) == own + below;
      assert RunsOf(own) == if p.run.None? then [] else [p.run.value];
      RunsOfConcat(own, below, state);
    }
  }

  lemma {:induction false} WrappingPreservesAllRuns(
    grow: Growth, st: Store, ps: seq<Phase>, state: ClusterState, parents: Slice, path: seq<string>, skip: Skips,
    now: Store)
    requires IsSlice(st, parents)
    ensures var ws := WrapAll(grow, st, ps, state, parents).1;
            && RunsOf(StepsAll(now, ws, path, skip)) == RunsAll(ps, path, skip)
            && AllIn(StepsAll(now, ws, path, skip), state)
    decreases ps, 0
  {
    if ps != [] {
      var (st', w) := Wrap(grow, st, ps[0], state, parents);
      WrappingPreservesRuns(grow, st, ps[0], state, parents, path, skip, now);
      WrappingPreservesAllRuns(grow, st', ps[1..], state, parents, path, skip, now);
      var ws := WrapAll(grow, st', ps[1..], state, parents).1;
      RunsOfConcat(Steps(now, w, path, skip), StepsAll(now, ws, path, skip), state);
    }
  }

  // ----- runs that fail ------------------------------------------------------------------------------

  datatype Effect = Update(state: ClusterState, name: string) | Ran(run: nat)

  /** The workflow stops after the first run that fails; `fails(k)` says whether the k-th one does. */
  function Performed<T>(runs: seq<T>, fails: nat -> bool, k: nat): seq<T> {
    if runs == [] then [] else [runs[0]] + if fails(k) then [] else Performed(runs[1..], fails, k + 1)
  }

  /** What wrapped runs do one after the other: each updates the status and then calls the old run. */
  function Effects(steps: seq<Step>): seq<Effect> {
    seq(2 * |steps|, i requires 0 <= i < 2 * |steps| =>
      var step := steps[i / 2];
      if i % 2 == 0 then Update(step.state, step.name) else Ran(step.run))
  }

  lemma {:induction false} PerformedRuns(steps: seq<Step>, fails: nat -> bool, k: nat)
    ensures RunsOf(Performed(steps, fails, k)) == Performed(RunsOf(steps), fails, k)
    ensures Performed(steps, fails, k) <= steps
    decreases |steps|
  {
    if steps != [] {
      var runs, rest := RunsOf(steps), if fails(k) then [] else Performed(steps[1..], fails, k + 1);
      assert runs[1..] == RunsOf(steps[1..]);
      PerformedRuns(steps[1..], fails, k + 1);
      RunsOfConcat([steps[0]], rest, steps[0].state);
      assert Performed(steps, fails, k) == [steps[0]] + rest && steps == [steps[0]] + steps[1..];
      assert Performed(runs, fails, k) == [runs[0]] + RunsOf(rest);
      assert RunsOf([steps[0]]) == [runs[0]];
    }
  }

  /** The runs whose phase has no RunIf or one that says yes; wrapping a phase leaves its RunIf alone. */
  function Willing(runs: seq<nat>, runIf: nat -> bool): seq<nat> {
    if runs == [] then [] else (if runIf(runs[0]) then [runs[0]] else []) + Willing(runs[1..], runIf)
  }

  function WillingSteps(steps: seq<Step>, runIf: nat -> bool): seq<Step> {
    if steps == [] then [] else (if runIf(steps[0].run) then [steps[0]] else []) + WillingSteps(steps[1..], runIf)
  }

  lemma {:induction false} WillingRuns(steps: seq<Step>, runIf: nat -> bool)
    ensures RunsOf(WillingSteps(steps, runIf)) == Willing(RunsOf(steps), runIf)
    decreases |steps|
  {
    if steps != [] {
      var own, rest := if runIf(steps[0].run) then [steps[0]] else [], WillingSteps(steps[1..], runIf);
      WillingRuns(steps[1..], runIf);
      assert RunsOf(steps)[1..] == RunsOf(steps[1..]) && RunsOf(steps)[0] == steps[0].run;
      RunsOfConcat(own, rest, steps[0].state);
      assert RunsOf(own) == if runIf(steps[0].run) then [steps[0].run] else [];
    }
  }

  /** What the steps do: for each run exactly one update, just before it. */
  lemma EffectsOf(steps: seq<Step>)
    ensures |Effects(steps)| == 2 * |steps|
    ensures forall i :: 0 <= i < |steps| ==>
              && Effects(steps)[2 * i] == Update(steps[i].state, steps[i].name)
              && Effects(steps)[2 * i + 1] == Ran(RunsOf(steps)[i])
  {
    forall i | 0 <= i < |steps|
      ensures Effects(steps)[2 * i] == Update(steps[i].state, steps[i].name)
      ensures Effects(steps)[2 * i + 1] == Ran(RunsOf(steps)[i])
    {
      assert (2 * i) / 2 == i && (2 * i + 1) / 2 == i && (2 * i) % 2 == 0 && (2 * i + 1) % 2 == 1;
    }
  }

  // ----- names ---------------------------------------------------------------------------------------

  /** The slash-joined path. */
  function Join(path: seq<string>): string
    requires path != []
    decreases |path|
  {
    var n := |path| - 1;
    if n == 0 then path[0] else Join(path[..n]) + "/" + path[n]
  }

  lemma {:induction false} PhaseNameIsJoin(st: Store, name: string, parents: Slice)
    requires IsSlice(st, parents)
    ensures PhaseName(st, name, parents) == Join(Contents(st, parents) + [name])
    decreases parents.len
  {
    var path := Contents(st, parents);
    if parents.len > 0 {
      var up := Slice(parents.arr, parents.len - 1);
      PhaseNameIsJoin(st, path[parents.len - 1], up);
      assert Contents(st, up) + [path[parents.len - 1]] == path;
      assert (path + [name])[..parents.len] == path;
    }
  }

  /** What the steps should be: preorder, with full paths. */
  function Expected(p: Phase, state: ClusterState, path: seq<string>, skip: Skips): seq<Step>
    decreases p, 1
  {
    if skip(path + [p.name]) then [] else
    (if p.run.None? then [] else [Step(state, Join(path + [p.name]), p.run.value)])
    + (if !p.nested then [] else ExpectedAll(p.phases, state, path + [p.name], skip))
  }

  function ExpectedAll(ps: seq<Phase>, state: ClusterState, path: seq<string>, skip: Skips): seq<Step>
    decreases ps, 0
  {
    if ps == [] then [] else Expected(ps[0], state, path, skip) + ExpectedAll(ps[1..], state, path, skip)
  }

  function Levels(p: Phase): nat
    decreases p, 1
  {
    1 + if p.nested then LevelsAll(p.phases) else 0
  }

  function LevelsAll(ps: seq<Phase>): nat
    decreases ps, 0
  {
    if ps == [] then 0 else
    var a, b := Levels(ps[0]), LevelsAll(ps[1..]);
    if a < b then b else a
  }

  // ----- who writes which cell last ------------------------------------------------------------------

  /** The name of the last phase, in pre-order, that has sub-phases and lies `k` levels below the
      top of the forest. */
  function LastNested(ps: seq<Phase>, k: nat): Option<string>
    decreases ps, 0
  {
    if ps == [] then None else
    var later := LastNested(ps[1..], k);
    if later.Some? then later else LastNestedOf(ps[0], k)
  }

  function LastNestedOf(p: Phase, k: nat): Option<string>
    decreases p, 1
  {
    if !p.nested then None else if k == 0 then Some(p.name) else LastNested(p.phases, k - 1)
  }

  function Or(x: Option<string>, y: string): string {
    if x.Some? then x.value else y
  }

  /** Wrapping below `parents` touches no other old array, no cell that `parents` shows, and
      leaves in each further cell of its array the last name written at that level. */
  ghost predicate Writes(st: Store, st': Store, parents: Slice, last: nat -> Option<string>)
    requires IsSlice(st, parents)
  {
    && |st| <= |st'|
    && (forall a :: 0 <= a < |st| && a != parents.arr ==> st'[a] == st[a])
    && |st'[parents.arr]| == |st[parents.arr]|
    && forall j :: 0 <= j < |st[parents.arr]| ==>
         st'[parents.arr][j] ==
         if j < parents.len then st[parents.arr][j] else Or(last(j - parents.len), st[parents.arr][j])
  }

  lemma {:induction false} WrapWrites(grow: Growth, st: Store, p: Phase, state: ClusterState, parents: Slice)
    requires IsSlice(st, parents)
    ensures Writes(st, Wrap(grow, st, p, state, parents).0, parents, (k: nat) => LastNestedOf(p, k))
    decreases p, 1
  {
    if p.nested {
      var (st', newParents) := Append(grow, st, parents, p.name);
      WrapAllWrites(grow, st', p.phases, state, newParents);
    }
  }

  lemma {:induction false} WrapAllWrites(grow: Growth, st: Store, ps: seq<Phase>, state: ClusterState, parents: Slice)
    requires IsSlice(st, parents)
    ensures Writes(st, WrapAll(grow, st, ps, state, parents).0, parents, (k: nat) => LastNested(ps, k))
    decreases ps, 0
  {
    if ps != [] {
      var st' := Wrap(grow, st, ps[0], state, parents).0;
      WrapWrites(grow, st, ps[0], state, parents);
      WrapAllWrites(grow, st', ps[1..], state, parents);
    }
  }

  // ----- the names that are really recorded ------------------------------------------------------------

  /** The final contents of the array allocated when phase `p` is appended to a full slice. */
  function FinalCells(grow: Growth, path: seq<string>, p: Phase): seq<string> {
    path + [p.name] + seq(Grown(grow, |path|) - |path| - 1, j requires 0 <= j => Or(LastNested(p.phases, j), ""))
  }

  /** What the array behind the slice of parents of the sub-phases of `p` finally contains. */
  function CellsBelow(grow: Growth, p: Phase, path: seq<string>, cells: seq<string>): seq<string> {
    if |path| < |cells| then cells else FinalCells(grow, path, p)
  }

  /** The steps of the wrapped tree without any store: `cells` is what the array behind the parent
      slice finally contains, and the name shows its first |path| cells. */
  function Recorded(grow: Growth, p: Phase, state: ClusterState, path: seq<string>, cells: seq<string>, skip: Skips)
    : seq<Step>
    requires |path| <= |cells|
    decreases p, 1
  {
    if skip(path + [p.name]) then [] else
    (if p.run.None? then [] else [Step(state, Join(cells[..|path|] + [p.name]), p.run.value)])
    + (if !p.nested then []
       else RecordedAll(grow, p.phases, state, path + [p.name], CellsBelow(grow, p, path, cells), skip))
  }

  function RecordedAll(
    grow: Growth, ps: seq<Phase>, state: ClusterState, path: seq<string>, cells: seq<string>, skip: Skips)
    : seq<Step>
    requires |path| <= |cells|
    decreases ps, 0
  {
    if ps == [] then [] else
    Recorded(grow, ps[0], state, path, cells, skip) + RecordedAll(grow, ps[1..], state, path, cells, skip)
  }

  /** `now` is the final store: the array of `parents` contains `cells`, and the arrays allocated
      between `st` and `st'` are as in `st'`, since only the phases below their owner write them. */
  ghost predicate Settled(st: Store, st': Store, parents: Slice, cells: seq<string>, now: Store)
    requires IsSlice(st, parents)
  {
    && |st| <= |st'| <= |now|
    && now[parents.arr] == cells && |cells| == |st[parents.arr]|
    && forall a :: |st| <= a < |st'| ==> now[a] == st'[a]
  }

  lemma {:induction false} RecordsNames(
    grow: Growth, st: Store, p: Phase, state: ClusterState, parents: Slice, path: seq<string>, cells: seq<string>,
    skip: Skips, now: Store)
    requires IsSlice(st, parents) && Contents(st, parents) == path
    requires Settled(st, Wrap(grow, st, p, state, parents).0, parents, cells, now)
    ensures Steps(now, Wrap(grow, st, p, state, parents).1, path, skip) == Recorded(grow, p, state, path, cells, skip)
    decreases p, 1
  {
    PhaseNameIsJoin(now, p.name, parents);
    if p.nested {
      RecordsSubNames(grow, st, p, state, parents, path, cells, skip, now);
    }
  }

  lemma {:induction false} RecordsSubNames(
    grow: Growth, st: Store, p: Phase, state: ClusterState, parents: Slice, path: seq<string>, cells: seq<string>,
    skip: Skips, now: Store)
    requires IsSlice(st, parents) && Contents(st, parents) == path && p.nested
    requires Settled(st, Wrap(grow, st, p, state, parents).0, parents, cells, now)
    ensures StepsAll(now, Wrap(grow, st, p, state, parents).1.phases, path + [p.name], skip) ==
            RecordedAll(grow, p.phases, state, path + [p.name], CellsBelow(grow, p, path, cells), skip)
    decreases p, 0
  {
    var (st', newParents) := Append(grow, st, parents, p.name);
    if |path| < |cells| {
      RecordsAllNames(grow, st', p.phases, state, newParents, path + [p.name], cells, skip, now);
    } else {
      OwnerFinishes(grow, st, p, state, parents, path);
      RecordsAllNames(grow, st', p.phases, state, newParents, path + [p.name], FinalCells(grow, path, p), skip, now);
    }
  }

  /** Appended to a full slice, a phase gets an array of its own, and this is what wrapping makes of it. */
  lemma OwnerFinishes(grow: Growth, st: Store, p: Phase, state: ClusterState, parents: Slice, path: seq<string>)
    requires IsSlice(st, parents) && Contents(st, parents) == path && |st[parents.arr]| == |path|
    ensures var (st', newParents) := Append(grow, st, parents, p.name);
            && newParents == Slice(|st|, |path| + 1) && |st'| == |st| + 1
            && |st'[|st|]| == |FinalCells(grow, path, p)|
            && |WrapAll(grow, st', p.phases, state, newParents).0| > |st|
            && WrapAll(grow, st', p.phases, state, newParents).0[|st|] == FinalCells(grow, path, p)
  {
    var (st', newParents) := Append(grow, st, parents, p.name);
    WrapAllWrites(grow, st', p.phases, state, newParents);
    assert st[parents.arr] == path;
  }

  lemma {:induction false} RecordsAllNames(
    grow: Growth, st: Store, ps: seq<Phase>, state: ClusterState, parents: Slice, path: seq<string>, cells: seq<string>,
    skip: Skips, now: Store)
    requires IsSlice(st, parents) && Contents(st, parents) == path
    requires Settled(st, WrapAll(grow, st, ps, state, parents).0, parents, cells, now)
    ensures StepsAll(now, WrapAll(grow, st, ps, state, parents).1, path, skip) ==
            RecordedAll(grow, ps, state, path, cells, skip)
    decreases ps, 0
  {
    if ps != [] {
      var st' := Wrap(grow, st, ps[0], state, parents).0;
      WrapWrites(grow, st, ps[0], state, parents);
      WrapAllWrites(grow, st', ps[1..], state, parents);
      RecordsNames(grow, st, ps[0], state, parents, path, cells, skip, now);
      assert Contents(st', parents) == path;
      RecordsAllNames(grow, st', ps[1..], state, parents, path, cells, skip, now);
    }
  }

  /** For every tree, however deep: the exact names that the wrapped runs record. */
  lemma ExactNames(grow: Growth, p: Phase, state: ClusterState, skip: Skips)
    ensures Steps(WrapTop(grow, p, state).0, WrapTop(grow, p, state).1, [], skip) ==
            Recorded(grow, p, state, [], [], skip)
  {
    WrapWrites(grow, [[]], p, state, Slice(0, 0));
    RecordsNames(grow, [[]], p, state, Slice(0, 0), [], [], skip, WrapTop(grow, p, state).0);
  }

  /** Down to the fourth level the cells shown are the path itself. */
  lemma {:induction false} FourLevels(
    grow: Growth, p: Phase, state: ClusterState, path: seq<string>, cells: seq<string>, skip: Skips)
    requires Tight(grow) && |path| + Levels(p) <= 4 && path <= cells && (|path| < 3 ==> |cells| == |path|)
    ensures Recorded(grow, p, state, path, cells, skip) == Expected(p, state, path, skip)
    decreases p, 1
  {
    assert cells[..|path|] == path;
    if p.nested && p.phases != [] {
      assert LevelsAll(p.phases) >= 1;
      AllFourLevels(grow, p.phases, state, path + [p.name], FinalCells(grow, path, p), skip);
    }
  }

  lemma {:induction false} AllFourLevels(
    grow: Growth, ps: seq<Phase>, state: ClusterState, path: seq<string>, cells: seq<string>, skip: Skips)
    requires Tight(grow) && |path| + LevelsAll(ps) <= 4 && path <= cells && (|path| < 3 ==> |cells| == |path|)
    ensures RecordedAll(grow, ps, state, path, cells, skip) == ExpectedAll(ps, state, path, skip)
    decreases ps, 0
  {
    if ps != [] {
      FourLevels(grow, ps[0], state, path, cells, skip);
      AllFourLevels(grow, ps[1..], state, path, cells, skip);
    }
  }

  /** On trees at most four levels deep the recorded name is the slash-joined path. */
  lemma FourLevelsAreNamedRight(grow: Growth, p: Phase, state: ClusterState, skip: Skips)
    requires Tight(grow) && Levels(p) <= 4
    ensures Steps(WrapTop(grow, p, state).0, WrapTop(grow, p, state).1, [], skip) == Expected(p, state, [], skip)
  {
    ExactNames(grow, p, state, skip);
    FourLevels(grow, p, state, [], [], skip);
  }

  // ----- when all names are right ------------------------------------------------------------------------

  /** At every run that is performed, the cells shown are the path. */
  predicate Right(grow: Growth, p: Phase, path: seq<string>, cells: seq<string>, skip: Skips)
    requires |path| <= |cells|
    decreases p, 1
  {
    || skip(path + [p.name])
    || (&& (p.run.Some? ==> cells[..|path|] == path)
        && (p.nested ==> RightAll(grow, p.phases, path + [p.name], CellsBelow(grow, p, path, cells), skip)))
  }

  predicate RightAll(grow: Growth, ps: seq<Phase>, path: seq<string>, cells: seq<string>, skip: Skips)
    requires |path| <= |cells|
    decreases ps, 0
  {
    ps != [] ==> Right(grow, ps[0], path, cells, skip) && RightAll(grow, ps[1..], path, cells, skip)
  }

  predicate Plain(name: string) {
    forall i :: 0 <= i < |name| ==> name[i] != '/'
  }

  predicate AllPlain(names: seq<string>) {
    forall i :: 0 <= i < |names| ==> Plain(names[i])
  }

  /** No name in the tree contains a slash. */
  predicate SlashFree(p: Phase)
    decreases p, 1
  {
    Plain(p.name) && (p.nested ==> AllSlashFree(p.phases))
  }

  predicate AllSlashFree(ps: seq<Phase>)
    decreases ps, 0
  {
    ps != [] ==> SlashFree(ps[0]) && AllSlashFree(ps[1..])
  }

  lemma LastPart(a: string, u: string, b: string, v: string)
    requires Plain(u) && Plain(v) && a + "/" + u == b + "/" + v
    ensures a == b && u == v
  {
    var s, t := a + "/" + u, b + "/" + v;
    assert s[|a|] == '/' && t[|b|] == '/';
    assert forall i :: |a| < i < |s| ==> s[i] == u[i - |a| - 1];
    assert forall i :: |b| < i < |t| ==> t[i] == v[i - |b| - 1];
    assert a == s[..|a|] && b == t[..|b|] && u == s[|a| + 1..] && v == t[|b| + 1..];
  }

  lemma {:induction false} JoinInjective(xs: seq<string>, ys: seq<string>)
    requires |xs| == |ys| > 0 && AllPlain(xs) && AllPlain(ys) && Join(xs) == Join(ys)
    ensures xs == ys
    decreases |xs|
  {
    var n := |xs| - 1;
    if n > 0 {
      LastPart(Join(xs[..n]), xs[n], Join(ys[..n]), ys[n]);
      JoinInjective(xs[..n], ys[..n]);
      assert xs == xs[..n] + [xs[n]] && ys == ys[..n] + [ys[n]];
    }
  }

  lemma EqualParts(a: seq<Step>, b: seq<Step>, c: seq<Step>, d: seq<Step>)
    requires |a| == |c|
    ensures a + b == c + d <==> a == c && b == d
  {
    if a + b == c + d {
      assert a == (a + b)[..|a|] == (c + d)[..|c|] == c;
      assert b == (a + b)[|a|..] == (c + d)[|c|..] == d;
    }
  }

  lemma {:induction false} LastNestedPlain(ps: seq<Phase>, k: nat)
    requires AllSlashFree(ps)
    ensures Plain(Or(LastNested(ps, k), ""))
    decreases ps, 0
  {
    if ps != [] {
      LastNestedPlain(ps[1..], k);
      if ps[0].nested && k > 0 {
        LastNestedPlain(ps[0].phases, k - 1);
      }
    }
  }

  lemma CellsPlain(grow: Growth, p: Phase, path: seq<string>, cells: seq<string>)
    requires SlashFree(p) && p.nested && AllPlain(path) && AllPlain(cells)
    ensures AllPlain(CellsBelow(grow, p, path, cells))
  {
    var fin := FinalCells(grow, path, p);
    forall i | 0 <= i < |fin|
      ensures Plain(fin[i])
    {
      if i > |path| {
        LastNestedPlain(p.phases, i - |path| - 1);
      }
    }
  }

  lemma OwnStep(p: Phase, state: ClusterState, path: seq<string>, cells: seq<string>)
    requires |path| <= |cells| && p.run.Some?
    ensures var own, due := [Step(state, Join(cells[..|path|] + [p.name]), p.run.value)],
                            [Step(state, Join(path + [p.name]), p.run.value)];
            && (cells[..|path|] == path ==> own == due)
            && (SlashFree(p) && AllPlain(path) && AllPlain(cells) && own == due ==> cells[..|path|] == path)
  {
    var shown, full := cells[..|path|] + [p.name], path + [p.name];
    var own, due := Step(state, Join(shown), p.run.value), Step(state, Join(full), p.run.value);
    assert [own][0] == own && [due][0] == due;
    if SlashFree(p) && AllPlain(path) && AllPlain(cells) && own == due {
      JoinInjective(shown, full);
      assert cells[..|path|] == shown[..|path|] && path == full[..|path|];
    }
  }

  lemma {:induction false} RightIsExpected(
    grow: Growth, p: Phase, state: ClusterState, path: seq<string>, cells: seq<string>, skip: Skips)
    requires |path| <= |cells|
    ensures |Recorded(grow, p, state, path, cells, skip)| == |Expected(p, state, path, skip)|
    ensures Right(grow, p, path, cells, skip) ==>
              Recorded(grow, p, state, path, cells, skip) == Expected(p, state, path, skip)
    ensures SlashFree(p) && AllPlain(path) && AllPlain(cells)
            && Recorded(grow, p, state, path, cells, skip) == Expected(p, state, path, skip) ==>
              Right(grow, p, path, cells, skip)
    decreases p, 1
  {
    if !skip(path + [p.name]) {
      var below, full := CellsBelow(grow, p, path, cells), path + [p.name];
      var own := if p.run.None? then [] else [Step(state, Join(cells[..|path|] + [p.name]), p.run.value)];
      var due := if p.run.None? then [] else [Step(state, Join(full), p.run.value)];
      var subs := if !p.nested then [] else RecordedAll(grow, p.phases, state, full, below, skip);
      var dueSubs := if !p.nested then [] else ExpectedAll(p.phases, state, full, skip);
      EqualParts(own, subs, due, dueSubs);
      if p.run.Some? {
        OwnStep(p, state, path, cells);
      }
      if p.nested {
        AllRightIsExpected(grow, p.phases, state, full, below, skip);
        if SlashFree(p) && AllPlain(path) && AllPlain(cells) {
          CellsPlain(grow, p, path, cells);
        }
      }
    }
  }

  lemma {:induction false} AllRightIsExpected(
    grow: Growth, ps: seq<Phase>, state: ClusterState, path: seq<string>, cells: seq<string>, skip: Skips)
    requires |path| <= |cells|
    ensures |RecordedAll(grow, ps, state, path, cells, skip)| == |ExpectedAll(ps, state, path, skip)|
    ensures RightAll(grow, ps, path, cells, skip) ==>
              RecordedAll(grow, ps, state, path, cells, skip) == ExpectedAll(ps, state, path, skip)
    ensures AllSlashFree(ps) && AllPlain(path) && AllPlain(cells)
            && RecordedAll(grow, ps, state, path, cells, skip) == ExpectedAll(ps, state, path, skip) ==>
              RightAll(grow, ps, path, cells, skip)
    decreases ps, 0
  {
    if ps != [] {
      RightIsExpected(grow, ps[0], state, path, cells, skip);
      AllRightIsExpected(grow, ps[1..], state, path, cells, skip);
      EqualParts(Recorded(grow, ps[0], state, path, cells, skip), RecordedAll(grow, ps[1..], state, path, cells, skip),
                 Expected(ps[0], state, path, skip), ExpectedAll(ps[1..], state, path, skip));
    }
  }

  /** For every tree, however deep, every set of skipped phases and every way slices grow: all names
      recorded are the slash-joined paths exactly if at every run performed the shared cells still
      hold the path. Only for the converse must names be free of slashes. */
  lemma NamedRightExactly(grow: Growth, p: Phase, state: ClusterState, skip: Skips)
    ensures Right(grow, p, [], [], skip) ==>
              Steps(WrapTop(grow, p, state).0, WrapTop(grow, p, state).1, [], skip) == Expected(p, state, [], skip)
    ensures SlashFree(p) ==>
              (Right(grow, p, [], [], skip) <==>
               Steps(WrapTop(grow, p, state).0, WrapTop(grow, p, state).1, [], skip) == Expected(p, state, [], skip))
  {
    ExactNames(grow, p, state, skip);
    RightIsExpected(grow, p, state, [], [], skip);
  }

  // ----- a tree with a wrong name --------------------------------------------------------------------------

  function Group(name: string, phases: seq<Phase>): Phase {
    Phase(name, None, true, phases)
  }

  function Action(name: string, run: nat): Phase {
    Phase(name, Some(run), false, [])
  }

  /** Three levels: a group with two groups `d` and `e`, and one phase with a run in each. */
  function ThreeLevels(c: string, d: string, e: string): Phase {
    Group(c, [Group(d, [Action("x", 1)]), Group(e, [Action("y", 2)])])
  }

  function FiveLevels(a: string, b: string, c: string, d: string, e: string): Phase {
    Group(a, [Group(b, [ThreeLevels(c, d, e)])])
  }

  /** Go's rule, for the lengths that matter here. */
  function Doubling(len: nat): nat {
    if len == 0 then 1 else 2 * len
  }

  /** With one sub-phase and no run of its own a phase only passes the path on. */
  lemma OneBelow(name: string, q: Phase, state: ClusterState, path: seq<string>, cells: seq<string>, skip: Skips)
    requires |path| <= |cells| && !skip(path + [name])
    ensures var p := Group(name, [q]);
            && Recorded(Doubling, p, state, path, cells, skip) ==
               Recorded(Doubling, q, state, path + [name], CellsBelow(Doubling, p, path, cells), skip)
            && Expected(p, state, path, skip) == Expected(q, state, path + [name], skip)
            && Levels(p) == 1 + Levels(q)
  {
    var p := Group(name, [q]);
    ListOfOne(q, state, path + [name], CellsBelow(Doubling, p, path, cells), skip);
    assert Expected(p, state, path, skip) == [] + ExpectedAll([q], state, path + [name], skip);
  }

  lemma ListOfOne(q: Phase, state: ClusterState, path: seq<string>, cells: seq<string>, skip: Skips)
    requires |path| <= |cells|
    ensures RecordedAll(Doubling, [q], state, path, cells, skip) == Recorded(Doubling, q, state, path, cells, skip)
    ensures ExpectedAll([q], state, path, skip) == Expected(q, state, path, skip) && LevelsAll([q]) == Levels(q)
  {
    assert [q][1..] == [];
    assert RecordedAll(Doubling, [], state, path, cells, skip) == [] && ExpectedAll([], state, path, skip) == [];
  }

  lemma ListOfTwo(q: Phase, r: Phase, state: ClusterState, path: seq<string>, cells: seq<string>, skip: Skips)
    requires |path| <= |cells|
    ensures RecordedAll(Doubling, [q, r], state, path, cells, skip) ==
            Recorded(Doubling, q, state, path, cells, skip) + Recorded(Doubling, r, state, path, cells, skip)
    ensures ExpectedAll([q, r], state, path, skip) == Expected(q, state, path, skip) + Expected(r, state, path, skip)
    ensures LevelsAll([q, r]) == if Levels(q) < Levels(r) then Levels(r) else Levels(q)
  {
    assert [q, r][1..] == [r];
    ListOfOne(r, state, path, cells, skip);
  }

  lemma BelowTwo(ab: seq<string>, c: string, q: Phase, r: Phase)
    requires |ab| == 2 && r.nested
    ensures FinalCells(Doubling, ab, Group(c, [q, r])) == ab + [c] + [r.name]
  {
    assert [q, r][1..] == [r] && [r][1..] == [] && LastNested([], 0) == None;
    assert LastNested([r], 0) == LastNestedOf(r, 0);
  }

  lemma PairBelow(ab: seq<string>, c: string, q: Phase, r: Phase, state: ClusterState, skip: Skips)
    requires |ab| == 2 && r.nested && !skip(ab + [c])
    ensures var p, abc := Group(c, [q, r]), ab + [c];
            && Recorded(Doubling, p, state, ab, ab, skip) ==
               Recorded(Doubling, q, state, abc, abc + [r.name], skip)
               + Recorded(Doubling, r, state, abc, abc + [r.name], skip)
            && Expected(p, state, ab, skip) == Expected(q, state, abc, skip) + Expected(r, state, abc, skip)
            && Levels(p) == 1 + if Levels(q) < Levels(r) then Levels(r) else Levels(q)
  {
    var p, abc := Group(c, [q, r]), ab + [c];
    BelowTwo(ab, c, q, r);
    ListOfTwo(q, r, state, abc, abc + [r.name], skip);
    assert Expected(p, state, ab, skip) == [] + ExpectedAll([q, r], state, abc, skip);
  }

  lemma InPair(abc: seq<string>, e: string, name: string, x: string, run: nat, state: ClusterState, skip: Skips)
    requires |abc| == 3 && forall path :: !skip(path)
    ensures var p := Group(name, [Action(x, run)]);
            && Recorded(Doubling, p, state, abc, abc + [e], skip) == [Step(state, Join(abc + [e] + [x]), run)]
            && Expected(p, state, abc, skip) == [Step(state, Join(abc + [name] + [x]), run)]
            && Levels(p) == 2
  {
    assert (abc + [e])[..4] == abc + [e];
    OneBelow(name, Action(x, run), state, abc, abc + [e], skip);
  }

  lemma LowerLevels(ab: seq<string>, c: string, d: string, e: string, state: ClusterState, skip: Skips)
    requires |ab| == 2 && forall path :: !skip(path)
    ensures Levels(ThreeLevels(c, d, e)) == 3
    ensures Recorded(Doubling, ThreeLevels(c, d, e), state, ab, ab, skip) ==
            [Step(state, Join(ab + [c] + [e] + ["x"]), 1)] + [Step(state, Join(ab + [c] + [e] + ["y"]), 2)]
    ensures Expected(ThreeLevels(c, d, e), state, ab, skip) ==
            [Step(state, Join(ab + [c] + [d] + ["x"]), 1)] + [Step(state, Join(ab + [c] + [e] + ["y"]), 2)]
  {
    PairBelow(ab, c, Group(d, [Action("x", 1)]), Group(e, [Action("y", 2)]), state, skip);
    InPair(ab + [c], e, d, "x", 1, state, skip);
    InPair(ab + [c], e, e, "y", 2, state, skip);
  }

  lemma UpperLevels(a: string, b: string, q: Phase, state: ClusterState, skip: Skips)
    requires forall path :: !skip(path)
    ensures var p := Group(a, [Group(b, [q])]);
            && Recorded(Doubling, p, state, [], [], skip) == Recorded(Doubling, q, state, [a, b], [a, b], skip)
            && Expected(p, state, [], skip) == Expected(q, state, [a, b], skip)
            && Levels(p) == 2 + Levels(q)
  {
    var r := Group(b, [q]);
    OneBelow(b, q, state, [a], [a], skip);
    OneBelow(a, r, state, [], [], skip);
    assert FinalCells(Doubling, [a], r) == [a] + [b] == [a, b];
    assert FinalCells(Doubling, [], Group(a, [r])) == [] + [a] == [a];
  }

  /** A tree with a wrong name: for the run in `d` the wrapped tree records a name in `e`, so its names
      are right only if the two are the same. */
  lemma FifthLevelNames(a: string, b: string, c: string, d: string, e: string, state: ClusterState, skip: Skips)
    requires AllPlain([a, b, c, d, e]) && forall path :: !skip(path)
    ensures var p, abc := FiveLevels(a, b, c, d, e), [a, b] + [c];
            var steps := Steps(WrapTop(Doubling, p, state).0, WrapTop(Doubling, p, state).1, [], skip);
            && Levels(p) == 5
            && steps == [Step(state, Join(abc + [e] + ["x"]), 1)] + [Step(state, Join(abc + [e] + ["y"]), 2)]
            && (steps == Expected(p, state, [], skip) <==> d == e)
  {
    var names := [a, b, c, d, e];
    assert Plain(names[0]) && Plain(names[1]) && Plain(names[2]) && Plain(names[3]) && Plain(names[4]);
    ExactNames(Doubling, FiveLevels(a, b, c, d, e), state, skip);
    AllLevels(a, b, c, d, e, state, skip);
    OthersNamed([a, b] + [c], d, e, state);
  }

  lemma AllLevels(a: string, b: string, c: string, d: string, e: string, state: ClusterState, skip: Skips)
    requires forall path :: !skip(path)
    ensures var p, abc := FiveLevels(a, b, c, d, e), [a, b] + [c];
            && Levels(p) == 5
            && Recorded(Doubling, p, state, [], [], skip) ==
               [Step(state, Join(abc + [e] + ["x"]), 1)] + [Step(state, Join(abc + [e] + ["y"]), 2)]
            && Expected(p, state, [], skip) ==
               [Step(state, Join(abc + [d] + ["x"]), 1)] + [Step(state, Join(abc + [e] + ["y"]), 2)]
  {
    UpperLevels(a, b, ThreeLevels(c, d, e), state, skip);
    LowerLevels([a, b], c, d, e, state, skip);
  }

  lemma OthersNamed(abc: seq<string>, d: string, e: string, state: ClusterState)
    requires AllPlain(abc) && Plain(d) && Plain(e)
    ensures d == e <==>
            [Step(state, Join(abc + [e] + ["x"]), 1)] + [Step(state, Join(abc + [e] + ["y"]), 2)]
            == [Step(state, Join(abc + [d] + ["x"]), 1)] + [Step(state, Join(abc + [e] + ["y"]), 2)]
  {
    FirstDiffers(Step(state, Join(abc + [e] + ["x"]), 1), Step(state, Join(abc + [d] + ["x"]), 1),
                 Step(state, Join(abc + [e] + ["y"]), 2));
    NamesDiffer(abc, d, e, "x");
  }

  lemma FirstDiffers(u: Step, v: Step, w: Step)
    ensures [u] + [w] == [v] + [w] <==> u == v
  {
    assert ([u] + [w])[0] == u && ([v] + [w])[0] == v;
  }

  lemma NamesDiffer(abc: seq<string>, d: string, e: string, x: string)
    requires AllPlain(abc) && Plain(d) && Plain(e) && Plain(x)
    ensures Join(abc + [e] + [x]) == Join(abc + [d] + [x]) <==> d == e
  {
    var shown, due := abc + [e] + [x], abc + [d] + [x];
    if Join(shown) == Join(due) {
      JoinInjective(shown, due);
      assert shown[|abc|] == e && due[|abc|] == d;
    }
  }

  // ----- the init workflow -----------------------------------------------------------------------------

  /** The states the 22 phases of addInitWorkflowPhases are wrapped with, in order. */
  const INIT_STATES: seq<ClusterState> :=
    [Started, Started]
    + [Initializing, Initializing, Initializing, Initializing, Initializing, Initializing, Initializing,
       Initializing, Initializing, Initializing, Initializing, Initializing, Initializing]
    + [Stabilizing, Stabilizing, Stabilizing, Stabilizing, Stabilizing, Stabilizing, Stabilizing]

  /** The steps of the whole workflow: the wrapped top-level phases one after the other. */
  function WorkflowSteps(grow: Growth, ps: seq<Phase>, states: seq<ClusterState>, skip: Skips): seq<Step>
    requires |ps| == |states|
  {
    if ps == [] then [] else
    var (st, w) := WrapTop(grow, ps[0], states[0]);
    Steps(st, w, [], skip) + WorkflowSteps(grow, ps[1..], states[1..], skip)
  }

  ghost predicate Ascending(states: seq<ClusterState>) {
    forall i, j :: 0 <= i < j < |states| ==> Rank(states[i]) <= Rank(states[j])
  }

  /** The states are among these, and never go back. */
  ghost predicate Forward(steps: seq<Step>, states: seq<ClusterState>) {
    && (forall i :: 0 <= i < |steps| ==> steps[i].state in states)
    && (forall i, j :: 0 <= i < j < |steps| ==> Rank(steps[i].state) <= Rank(steps[j].state))
  }

  lemma {:induction false} WorkflowStates(grow: Growth, ps: seq<Phase>, states: seq<ClusterState>, skip: Skips)
    requires |ps| == |states| && Ascending(states)
    ensures Forward(WorkflowSteps(grow, ps, states, skip), states)
    decreases |ps|
  {
    if ps != [] {
      var (st, w) := WrapTop(grow, ps[0], states[0]);
      WrappingPreservesRuns(grow, [[]], ps[0], states[0], Slice(0, 0), [], skip, st);
      WorkflowStates(grow, ps[1..], states[1..], skip);
    }
  }

  lemma {:induction false} WorkflowRuns(grow: Growth, ps: seq<Phase>, states: seq<ClusterState>, skip: Skips)
    requires |ps| == |states|
    ensures RunsOf(WorkflowSteps(grow, ps, states, skip)) == RunsAll(ps, [], skip)
    decreases |ps|
  {
    if ps != [] {
      var (st, w) := WrapTop(grow, ps[0], states[0]);
      WrappingPreservesRuns(grow, [[]], ps[0], states[0], Slice(0, 0), [], skip, st);
      WorkflowRuns(grow, ps[1..], states[1..], skip);
      RunsOfConcat(Steps(st, w, [], skip), WorkflowSteps(grow, ps[1..], states[1..], skip), states[0]);
    }
  }

  lemma {:induction false} WillingForward(steps: seq<Step>, runIf: nat -> bool, states: seq<ClusterState>)
    requires Forward(steps, states)
    ensures Forward(WillingSteps(steps, runIf), states)
    ensures forall x :: x in WillingSteps(steps, runIf) ==> x in steps
    decreases |steps|
  {
    if steps != [] {
      var x, tail, rest := steps[0], steps[1..], WillingSteps(steps[1..], runIf);
      assert steps == [x] + tail;
      ForwardTail(x, tail, states);
      WillingForward(tail, runIf, states);
      ForwardHead(x, rest, tail, states);
    }
  }

  lemma ForwardTail(x: Step, tail: seq<Step>, states: seq<ClusterState>)
    requires Forward([x] + tail, states)
    ensures Forward(tail, states) && x.state in states
    ensures forall y :: y in tail ==> Rank(x.state) <= Rank(y.state)
  {
    var steps := [x] + tail;
    assert steps[0] == x && forall i :: 0 <= i < |tail| ==> tail[i] == steps[i + 1];
  }

  lemma ForwardHead(x: Step, rest: seq<Step>, tail: seq<Step>, states: seq<ClusterState>)
    requires Forward(rest, states) && x.state in states && forall y :: y in rest ==> y in tail
    requires forall y :: y in tail ==> Rank(x.state) <= Rank(y.state)
    ensures Forward([x] + rest, states)
  {
    assert forall i :: 0 <= i < |rest| ==> rest[i] in tail;
  }

  /** Whichever runs fail, whatever RunIf says and whichever phases are skipped, the whole wrapped workflow
      performs exactly the runs the original would before it stops, in the same order, and does nothing
      else but one update just before each; and the states of these updates are those given, never
      going back. */
  lemma FailuresStopAlike(
    grow: Growth, ps: seq<Phase>, states: seq<ClusterState>, skip: Skips, runIf: nat -> bool, fails: nat -> bool)
    requires |ps| == |states| && Ascending(states)
    ensures var trace := Effects(Performed(WillingSteps(WorkflowSteps(grow, ps, states, skip), runIf), fails, 0));
            var runs := Performed(Willing(RunsAll(ps, [], skip), runIf), fails, 0);
            && |trace| == 2 * |runs|
            && (forall i :: 0 <= i < |runs| ==>
                  trace[2 * i].Update? && trace[2 * i].state in states && trace[2 * i + 1] == Ran(runs[i]))
            && (forall i, j :: 0 <= i < j < |runs| ==> Rank(trace[2 * i].state) <= Rank(trace[2 * j].state))
  {
    var all := WorkflowSteps(grow, ps, states, skip);
    var steps := WillingSteps(all, runIf);
    var done := Performed(steps, fails, 0);
    WorkflowRuns(grow, ps, states, skip);
    WorkflowStates(grow, ps, states, skip);
    WillingRuns(all, runIf);
    WillingForward(all, runIf, states);
    PerformedRuns(steps, fails, 0);
    EffectsOf(done);
    assert forall i :: 0 <= i < |done| ==> done[i] == steps[i];
  }

  /** Whatever phases are skipped, the states the init workflow records never go back, and none of
      them is a stable one. */
  lemma InitStatesNeverGoBack(grow: Growth, ps: seq<Phase>, skip: Skips)
    requires |ps| == 22
    ensures |INIT_STATES| == 22
    ensures var steps := WorkflowSteps(grow, ps, INIT_STATES, skip);
            && (forall i :: 0 <= i < |steps| ==> !Stable(steps[i].state))
            && (forall i, j :: 0 <= i < j < |steps| ==> Rank(steps[i].state) <= Rank(steps[j].state))
  {
    InitStatesAscend();
    WorkflowStates(grow, ps, INIT_STATES, skip);
  }

  lemma InitStatesAscend()
    ensures |INIT_STATES| == 22 && Ascending(INIT_STATES) && forall v :: v in INIT_STATES ==> !Stable(v)
  {
    var n := INIT_STATES;
    assert forall i :: 0 <= i < 22 ==> n[i] == if i < 2 then Started else if i < 15 then Initializing else Stabilizing;
  }
}
