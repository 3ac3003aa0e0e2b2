/**
 The check executor of pkg/check/status_check.go as a transition system.

 A prepared run is a forest of results numbered in pre-order. Every started result has one
 goroutine; each select branch, each section under a mutex, each `go` statement and the
 deferred close of `Done` is one atomic step.
 */
module CheckGraph {
  import opened Wrappers

  datatype Status = Pending | Running | Skipped | Success | Failed

  /** The check function of a leaf: absent, or present and returning `ok`. */
  datatype CheckFn = NoFn | Fn(ok: bool)

  datatype Node = Node(parent: Option<nat>, subs: seq<nat>, deps: seq<nat>, fn: CheckFn)

  datatype Graph = Graph(nodes: seq<Node>, roots: seq<nat>)

  ghost predicate NodeWellFormed(g: Graph, i: nat)
    requires i < |g.nodes|
  {
    var n := g.nodes[i];
    && (forall k :: 0 <= k < |n.deps| ==> n.deps[k] < |g.nodes|)
    && (forall k :: 0 <= k < |n.subs| ==> n.subs[k] < |g.nodes| && g.nodes[n.subs[k]].parent == Some(i))
    && (forall k, l :: 0 <= k < l < |n.subs| ==> n.subs[k] != n.subs[l])
    && (n.parent.Some? ==> n.parent.value < i && i in g.nodes[n.parent.value].subs)
    && (n.parent.None? ==> i in g.roots)
  }

  /** Containment is a forest in pre-order; dependencies may point anywhere. */
  ghost predicate WellFormed(g: Graph) {
    && (forall k :: 0 <= k < |g.roots| ==> g.roots[k] < |g.nodes| && g.nodes[g.roots[k]].parent == None)
    && (forall k, l :: 0 <= k < l < |g.roots| ==> g.roots[k] != g.roots[l])
    && (forall i: nat {:trigger NodeWellFormed(g, i)} :: i < |g.nodes| ==> NodeWellFormed(g, i))
  }

  /** Where the goroutine of a result stands. */
  datatype Pc =
    | Unstarted                          // Run not called yet
    | Spawned                            // goroutine created, Status not yet reset
    | AwaitDep(dep: nat)                 // select on ctx.Done() and ParentResults[dep].Done
    | SawDep(dep: nat)                   // that Done was received, Success() not yet read
    | Skipping(dep: nat)                 // it was not a success, Skipped not yet written
    | Ready                              // all dependencies succeeded, Running not yet written
    | SpawnSub(sub: nat)                 // about to call Run on SubResults[sub]
    | AwaitSub(sub: nat, failed: bool)   // select on ctx.Done() and SubResults[sub].Done
    | SawSub(sub: nat, failed: bool)     // that Done was received, Failed() not yet read
    | Verdict(failed: bool)              // all sub-results seen, phase status not yet written
    | CallFn                             // about to look for the check function
    | InFn                               // the check function is executing
    | WriteFn(ok: bool)                  // its answer is known but not yet written
    | Exiting                            // only the deferred close(Done) is left
    | Exited

  datatype Local = Local(pc: Pc, status: Status, closes: nat, fnRuns: nat)

  datatype State = State(locals: seq<Local>, nextRoot: nat, drained: nat, returned: bool, cancelled: bool)

  /** Steps: a goroutine going on, a goroutine leaving a select through ctx.Done(), the starting
      loop, the draining goroutine and the final select of CheckExecutor.Run, and cancellation. */
  datatype Action = Advance(i: nat) | Abort(i: nat) | StartRoot | DrainRoot | Return | Cancel

  function Init(g: Graph): State {
    State(seq(|g.nodes|, _ => Local(Unstarted, Pending, 0, 0)), 0, 0, false, false)
  }

  predicate Shaped(g: Graph, s: State) {
    |s.locals| == |g.nodes|
  }

  predicate Done(s: State, i: nat) {
    i < |s.locals| && s.locals[i].closes > 0
  }

  predicate DoneWith(s: State, i: nat, v: Status) {
    Done(s, i) && s.locals[i].status == v
  }

  function NextDep(n: Node, k: nat): Pc {
    if k < |n.deps| then AwaitDep(k) else Ready
  }

  function NextSub(n: Node, k: nat, failed: bool): Pc {
    if k < |n.subs| then AwaitSub(k, failed) else Verdict(failed)
  }

  predicate CanAdvance(g: Graph, s: State, i: nat) {
    && Shaped(g, s) && i < |g.nodes|
    && var n := g.nodes[i];
       match s.locals[i].pc
       case Unstarted => false
       case AwaitDep(k) => k < |n.deps| && Done(s, n.deps[k])
       case SawDep(k) => k < |n.deps| && n.deps[k] < |s.locals|
       case SpawnSub(k) => k < |n.subs| && n.subs[k] < |s.locals|
       case AwaitSub(k, _) => k < |n.subs| && Done(s, n.subs[k])
       case SawSub(k, _) => k < |n.subs| && n.subs[k] < |s.locals|
       case Exited => false
       case _ => true
  }

  predicate Enabled(g: Graph, s: State, a: Action) {
    Shaped(g, s) &&
    match a
    case Advance(i) => CanAdvance(g, s, i)
    case Abort(i) => s.cancelled && i < |s.locals| && (s.locals[i].pc.AwaitDep? || s.locals[i].pc.AwaitSub?)
    case StartRoot => s.nextRoot < |g.roots| && g.roots[s.nextRoot] < |s.locals|
    case DrainRoot => s.nextRoot == |g.roots| && s.drained < |g.roots| && Done(s, g.roots[s.drained])
    case Return => s.nextRoot == |g.roots| && !s.returned && (s.cancelled || s.drained == |g.roots|)
    case Cancel => !s.cancelled
  }

  /** The local effect of one step of goroutine `i`, reading the statuses of other results. */
  function Advanced(g: Graph, s: State, i: nat): Local
    requires CanAdvance(g, s, i)
  {
    var n, l := g.nodes[i], s.locals[i];
    match l.pc
    case Unstarted => l
    case Spawned => l.(status := Pending, pc := NextDep(n, 0))
    case AwaitDep(k) => l.(pc := SawDep(k))
    case SawDep(k) =>
      l.(pc := if s.locals[n.deps[k]].status == Success then NextDep(n, k + 1) else Skipping(k))
    case Skipping(_) => l.(status := Skipped, pc := Exiting)
    case Ready => l.(status := Running, pc := if |n.subs| > 0 then SpawnSub(0) else CallFn)
    case SpawnSub(k) => l.(pc := if k + 1 < |n.subs| then SpawnSub(k + 1) else AwaitSub(0, false))
    case AwaitSub(k, f) => l.(pc := SawSub(k, f))
    case SawSub(k, f) => l.(pc := NextSub(n, k + 1, f || s.locals[n.subs[k]].status == Failed))
    case Verdict(f) => l.(status := if f then Failed else Success, pc := Exiting)
    case CallFn => if n.fn.Fn? then l.(pc := InFn, fnRuns := l.fnRuns + 1) else l.(pc := WriteFn(false))
    case InFn => l.(pc := WriteFn(n.fn.Fn? && n.fn.ok))
    case WriteFn(ok) => l.(status := if ok then Success else Failed, pc := Exiting)
    case Exiting => l.(closes := l.closes + 1, pc := Exited)
    case Exited => l
  }

  function Start(s: State, j: nat): State
    requires j < |s.locals|
  {
    s.(locals := s.locals[j := s.locals[j].(pc := Spawned)])
  }

  function Apply(g: Graph, s: State, a: Action): State
    requires Enabled(g, s, a)
  {
    match a
    case Advance(i) =>
      var s' := s.(locals := s.locals[i := Advanced(g, s, i)]);
      if s.locals[i].pc.SpawnSub? then Start(s', g.nodes[i].subs[s.locals[i].pc.sub]) else s'
    case Abort(i) => s.(locals := s.locals[i := s.locals[i].(pc := Exiting)])
    case StartRoot => Start(s, g.roots[s.nextRoot]).(nextRoot := s.nextRoot + 1)
    case DrainRoot => s.(drained := s.drained + 1)
    case Return => s.(returned := true)
    case Cancel => s.(cancelled := true)
  }

  /** A run: states[0] is the initial state and actions[k] leads from states[k] to states[k+1]. */
  ghost predicate IsRun(g: Graph, actions: seq<Action>, states: seq<State>) {
    && |states| == |actions| + 1
    && states[0] == Init(g)
    && forall k :: 0 <= k < |actions| ==>
         Enabled(g, states[k], actions[k]) && states[k + 1] == Apply(g, states[k], actions[k])
  }

  /** No goroutine can go on; only a cancellation could still happen. */
  ghost predicate Complete(g: Graph, s: State) {
    forall a: Action :: Enabled(g, s, a) ==> a == Cancel
  }
}
