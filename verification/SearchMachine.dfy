/** The dfs closure of detectCycles (internal/linter/linter.go:154-220) as a
    machine: its steps, and what every run of steps keeps. */
module SearchMachine {
  import opened Wrappers
  import opened DependencyGraph

  const MAX_CYCLE_DEPTH := 1000

  /** Answer of GetSpec; only existence matters to the linter. */
  datatype SpecReply = SpecFound | SpecNotFound | SpecFailed

  /** Answer of GetDependencies; a nil slice is told apart from an empty one
      because detectCycles fetches the root again when it is handed nil. */
  datatype DepsReply = Refs(refs: seq<Slug>) | NilRefs | DepsNotFound | DepsFailed {
    predicate Found() { Refs? || NilRefs? }
    function Targets(): seq<Slug> { if Refs? then refs else [] }
  }

  /** A fixed backend: total functions, so any number of slugs may exist. */
  datatype Backend = Backend(getSpec: Slug -> SpecReply, getDependencies: Slug -> DepsReply)

  datatype Rule = SchemaRule | DanglingRef | GraphCycle | MissingNode
  datatype Severity = Error | Warning
  datatype Violation = Violation(rule: Rule, severity: Severity, location: Slug)

  function CycleFound(s: Slug): Violation { Violation(GraphCycle, Error, s) }
  function TooDeep(s: Slug): Violation { Violation(GraphCycle, Warning, s) }
  function NodeMissing(s: Slug): Violation { Violation(MissingNode, Warning, s) }
  function Dangling(s: Slug): Violation { Violation(DanglingRef, Error, s) }

  /** What one search sees: the backend, except that the root's dependencies may
      have been fetched beforehand, and the slugs already reported as dangling. */
  datatype View = View(backend: Backend, root: Slug, rootDeps: Option<seq<Slug>>, dangling: set<Slug>) {
    predicate Prefetched(s: Slug) {
      s == root && rootDeps.Some?
    }
    function Reply(s: Slug): DepsReply {
      if Prefetched(s) then Refs(rootDeps.value) else backend.getDependencies(s)
    }
    ghost function Graph(): Graph {
      s => Reply(s).Targets()
    }
  }

  /** The variables captured by the closure, with the stack in order (top first),
      and two histories, latest first: slugs taken off the stack and slugs looked
      up in the backend. */
  datatype Trace = Trace(
    visited: set<Slug>, stack: List<Slug>, violations: seq<Violation>, storageErr: Option<Slug>,
    finished: List<Slug>, fetched: List<Slug>)

  datatype Step =
    | ReportCycle(slug: Slug)
    | CutDepth(slug: Slug)
    | Enter(slug: Slug)
    | LeaveMissing(slug: Slug)
    | LeaveFailed(slug: Slug)
    | LeaveFollowed(slug: Slug)

  /** current is the root, or a dependency of the slug on top of the stack. */
  ghost predicate Next(view: View, stack: List<Slug>, current: Slug) {
    match stack
    case Nil => current == view.root
    case Cons(top, _) => current in view.Graph()(top)
  }

  ghost predicate OnTop(stack: List<Slug>, s: Slug) {
    stack.Cons? && stack.head == s
  }

  /** The slugs whose edges were answered with a report instead of a descent. */
  ghost function Reported(violations: seq<Violation>): iset<Slug> {
    iset s | CycleFound(s) in violations || TooDeep(s) in violations
  }

  /** The search is through with s as a dependency. */
  ghost predicate Done(t: Trace, s: Slug) {
    s in t.visited && (s in Elements(t.finished) || s in Reported(t.violations))
  }

  /** Every dependency of s was followed. */
  ghost predicate Followed(view: View, t: Trace, s: Slug) {
    forall d :: d in view.Graph()(s) ==> Done(t, d)
  }

  ghost predicate Allowed(view: View, t: Trace, step: Step) {
    match step
    case ReportCycle(s) => t.storageErr.None? && Next(view, t.stack, s) && s in Elements(t.stack)
    case CutDepth(s) =>
      t.storageErr.None? && Next(view, t.stack, s) && s !in t.visited && Length(t.stack) == MAX_CYCLE_DEPTH + 1
    case Enter(s) =>
      t.storageErr.None? && Next(view, t.stack, s) && s !in t.visited && Length(t.stack) <= MAX_CYCLE_DEPTH
    case LeaveMissing(s) => OnTop(t.stack, s) && t.storageErr.None? && view.Reply(s).DepsNotFound?
    case LeaveFailed(s) => OnTop(t.stack, s) && t.storageErr.None? && view.Reply(s).DepsFailed?
    case LeaveFollowed(s) =>
      OnTop(t.stack, s) && view.Reply(s).Found() && (t.storageErr.None? ==> Followed(view, t, s))
  }

  ghost function Popped(t: Trace): Trace {
    match t.stack
    case Nil => t
    case Cons(top, rest) => t.(stack := rest, finished := Cons(top, t.finished))
  }

  ghost function Apply(view: View, t: Trace, step: Step): Trace {
    match step
    case ReportCycle(s) => t.(violations := t.violations + [CycleFound(s)])
    case CutDepth(s) => t.(visited := t.visited + {s}, violations := t.violations + [TooDeep(s)])
    case Enter(s) =>
      t.(visited := t.visited + {s}, stack := Cons(s, t.stack),
         fetched := if view.Prefetched(s) then t.fetched else Cons(s, t.fetched))
    case LeaveMissing(s) =>
      Popped(t).(violations := if s in view.dangling then t.violations else t.violations + [NodeMissing(s)])
    case LeaveFailed(s) => Popped(t).(storageErr := Some(s))
    case LeaveFollowed(s) => Popped(t)
  }

  const INIT := Trace({}, Nil, [], None, Nil, Nil)

  /** The state after some steps, the latest first. */
  ghost function After(view: View, steps: List<Step>): Trace {
    match steps
    case Nil => INIT
    case Cons(step, before) => Apply(view, After(view, before), step)
  }

  ghost predicate IsRun(view: View, steps: List<Step>) {
    match steps
    case Nil => true
    case Cons(step, before) => IsRun(view, before) && Allowed(view, After(view, before), step)
  }

  // ---------------------------------------------------------------- invariants of every run

  /** Each slug on the stack is a dependency of the one below it; the root is at
      the bottom. */
  ghost predicate Chain(view: View, stack: List<Slug>) {
    match stack
    case Nil => true
    case Cons(s, below) => Next(view, below, s) && Chain(view, below)
  }

  /** The stack is a repetition-free walk from the root through visited slugs. */
  ghost predicate StackIsWalk(view: View, t: Trace) {
    Distinct(t.stack) && Elements(t.stack) <= t.visited && Chain(view, t.stack)
  }

  lemma StackStep(view: View, t: Trace, step: Step)
    requires StackIsWalk(view, t) && Allowed(view, t, step)
    ensures StackIsWalk(view, Apply(view, t, step))
  {
  }

  lemma {:induction false} StackInvariant(view: View, steps: List<Step>)
    requires IsRun(view, steps)
    ensures StackIsWalk(view, After(view, steps))
  {
    if steps.Cons? {
      StackInvariant(view, steps.tail);
      StackStep(view, After(view, steps.tail), steps.head);
    }
  }

  /** The part of the stack from s up to the top, as a walk. */
  lemma {:induction false} StackWalk(view: View, stack: List<Slug>, s: Slug) returns (w: Walk)
    requires Chain(view, stack) && s in Elements(stack)
    ensures Connects(view.Graph(), s, w, stack.head)
  {
    if s == stack.head {
      w := Here(s);
    } else {
      w := StackWalk(view, stack.tail, s);
      w := Via(w, stack.head);
    }
  }

  /** The whole stack with one more slug, as a walk with as many edges as slugs. */
  lemma {:induction false} RootWalk(view: View, stack: List<Slug>, s: Slug) returns (w: Walk)
    requires Chain(view, stack) && Next(view, stack, s)
    ensures Connects(view.Graph(), view.root, w, s) && w.Edges() == Length(stack)
  {
    if stack.Nil? {
      w := Here(s);
    } else {
      w := RootWalk(view, stack.tail, stack.head);
      w := Via(w, s);
    }
  }

  /** The reason a violation may be reported. */
  ghost predicate Justified(view: View, v: Violation) {
    && Reachable(view.Graph(), view.root, v.location)
    && match v.rule
       case GraphCycle =>
         if v.severity == Error then OnCycle(view.Graph(), v.location)
         else exists w :: Connects(view.Graph(), view.root, w, v.location) && w.Edges() == 1001
       case MissingNode =>
         v.severity == Warning && v.location !in view.dangling && view.Reply(v.location).DepsNotFound?
       case _ => false
  }

  ghost predicate ErrorJustified(view: View, s: Slug) {
    Reachable(view.Graph(), view.root, s) && view.Reply(s).DepsFailed?
  }

  /** What one step reports is justified by the stack it stands on. */
  lemma StepJustified(view: View, t: Trace, step: Step)
    requires StackIsWalk(view, t) && Allowed(view, t, step)
    ensures forall v :: v in Apply(view, t, step).violations && v !in t.violations ==> Justified(view, v)
    ensures step.LeaveFailed? ==> ErrorJustified(view, step.slug)
  {
    match step
    case ReportCycle(s) =>
      var w := StackWalk(view, t.stack, s);
      assert Cycle(view.Graph(), s, Via(w, s));
      var r := RootWalk(view, t.stack, s);
    case CutDepth(s) =>
      var r := RootWalk(view, t.stack, s);
    case LeaveMissing(s) =>
      var r := RootWalk(view, t.stack.tail, s);
    case LeaveFailed(s) =>
      var r := RootWalk(view, t.stack.tail, s);
    case _ =>
  }

  /** Every report of every run is true of the graph. */
  lemma {:induction false} ReportsSound(view: View, steps: List<Step>)
    requires IsRun(view, steps)
    ensures forall v :: v in After(view, steps).violations ==> Justified(view, v)
    ensures After(view, steps).storageErr.Some? ==> ErrorJustified(view, After(view, steps).storageErr.value)
  {
    if steps.Cons? {
      ReportsSound(view, steps.tail);
      StackInvariant(view, steps.tail);
      StepJustified(view, After(view, steps.tail), steps.head);
    }
  }

  /** Every visited slug is on the stack, finished, or was cut off by depth. */
  ghost predicate Accounted(t: Trace) {
    && Elements(t.finished) <= t.visited && Elements(t.finished) !! Elements(t.stack)
    && (forall s :: s in t.visited ==> s in Elements(t.stack) || s in Elements(t.finished) || TooDeep(s) in t.violations)
  }

  lemma {:induction false} AccountedInvariant(view: View, steps: List<Step>)
    requires IsRun(view, steps)
    ensures Accounted(After(view, steps))
  {
    if steps.Cons? {
      AccountedInvariant(view, steps.tail);
      StackInvariant(view, steps.tail);
      var t, u := After(view, steps.tail), After(view, steps);
      assert forall v :: v in t.violations ==> v in u.violations;
      assert steps.head.CutDepth? ==> TooDeep(steps.head.slug) in u.violations;
    }
  }

  /** A finished slug that does not exist was reported, here or as dangling; a
      reported one is finished; a failed look-up is never passed over. */
  ghost predicate MissingReported(view: View, t: Trace) {
    && (forall s :: s in Elements(t.finished) && view.Reply(s).DepsNotFound? && s !in view.dangling ==>
          NodeMissing(s) in t.violations)
    && (forall s :: NodeMissing(s) in t.violations ==> s in Elements(t.finished))
    && (forall s :: s in Elements(t.finished) && view.Reply(s).DepsFailed? ==> t.storageErr.Some?)
  }

  lemma MissingStep(view: View, t: Trace, step: Step)
    requires MissingReported(view, t) && Allowed(view, t, step)
    ensures MissingReported(view, Apply(view, t, step))
  {
    var u := Apply(view, t, step);
    assert forall s :: NodeMissing(s) in u.violations <==>
        NodeMissing(s) in t.violations || (step == LeaveMissing(s) && s !in view.dangling);
  }

  lemma {:induction false} MissingInvariant(view: View, steps: List<Step>)
    requires IsRun(view, steps)
    ensures MissingReported(view, After(view, steps))
  {
    if steps.Cons? {
      MissingInvariant(view, steps.tail);
      MissingStep(view, After(view, steps.tail), steps.head);
    }
  }

  /** While no storage error was met, edges out of finished slugs were followed, to slugs
      that finished earlier or were reported. */
  ghost predicate Explored(view: View, t: Trace) {
    t.storageErr.None? ==>
      && (forall s, d :: s in Elements(t.finished) && d in view.Graph()(s) ==> d in t.visited)
      && FinishOrder(view.Graph(), Reported(t.violations), t.finished)
  }

  lemma ExploredStep(view: View, t: Trace, step: Step)
    requires Explored(view, t) && Allowed(view, t, step)
    ensures Explored(view, Apply(view, t, step))
  {
    var u := Apply(view, t, step);
    assert forall v :: v in t.violations ==> v in u.violations;
    assert Reported(t.violations) <= Reported(u.violations);
    if t.storageErr.None? {
      MoreMarks(view.Graph(), Reported(t.violations), Reported(u.violations), t.finished);
    }
  }

  lemma {:induction false} ExploredInvariant(view: View, steps: List<Step>)
    requires IsRun(view, steps)
    ensures Explored(view, After(view, steps))
  {
    if steps.Cons? {
      ExploredInvariant(view, steps.tail);
      ExploredStep(view, After(view, steps.tail), steps.head);
    }
  }

  /** No backend look-up is repeated, a prefetched root is not looked up, and no missing slug is reported twice. */
  ghost predicate NoRepeats(view: View, t: Trace) {
    && Distinct(t.fetched) && Elements(t.fetched) <= t.visited
    && (view.rootDeps.Some? ==> view.root !in Elements(t.fetched))
    && (forall s :: multiset(t.violations)[NodeMissing(s)] <= 1)
  }

  lemma {:induction false} NoRepeatsInvariant(view: View, steps: List<Step>)
    requires IsRun(view, steps)
    ensures NoRepeats(view, After(view, steps))
  {
    if steps.Cons? {
      NoRepeatsInvariant(view, steps.tail);
      MissingInvariant(view, steps.tail);
      AccountedInvariant(view, steps.tail);
      var t := After(view, steps.tail);
      assert steps.head.LeaveMissing? ==> NodeMissing(steps.head.slug) !in t.violations;
    }
  }

  /** s is at most 1000 edges away, which is what the depth limit allows. */
  ghost predicate Near(g: Graph, root: Slug, s: Slug) {
    exists w :: Connects(g, root, w, s) && w.Edges() <= 1000
  }

  /** Whatever was not reported as too deep was entered near the root. */
  ghost predicate VisitedNear(view: View, t: Trace) {
    forall s :: s in t.visited && TooDeep(s) !in t.violations ==> Near(view.Graph(), view.root, s)
  }

  lemma NearStep(view: View, t: Trace, step: Step)
    requires StackIsWalk(view, t) && VisitedNear(view, t) && Allowed(view, t, step)
    ensures VisitedNear(view, Apply(view, t, step))
  {
    var u := Apply(view, t, step);
    assert forall v :: v in t.violations ==> v in u.violations;
    if step.Enter? {
      var w := RootWalk(view, t.stack, step.slug);
    } else if step.CutDepth? {
      assert u.violations[|t.violations|] == TooDeep(step.slug);
    }
  }

  lemma {:induction false} NearInvariant(view: View, steps: List<Step>)
    requires IsRun(view, steps)
    ensures VisitedNear(view, After(view, steps))
  {
    if steps.Cons? {
      NearInvariant(view, steps.tail);
      StackInvariant(view, steps.tail);
      NearStep(view, After(view, steps.tail), steps.head);
    }
  }

  // ---------------------------------------------------------------- what a finished search says

  ghost predicate DepthRespected(violations: seq<Violation>) {
    forall s :: TooDeep(s) !in violations
  }

  ghost function CyclesFound(violations: seq<Violation>): iset<Slug> {
    iset s | CycleFound(s) in violations
  }

  ghost predicate CycleFree(violations: seq<Violation>) {
    forall v :: v in violations ==> v.rule != GraphCycle
  }

  /** Every report is true and no missing slug is reported twice; unless the depth
      limit cut the search short, every reachable slug is near and was looked at,
      every missing one is reported here or as dangling, and every cycle through a
      reachable slug visits one that is reported for it, so that silence about
      cycles means that there is none. */
  ghost predicate Exact(view: View, violations: seq<Violation>) {
    && (forall v :: v in violations ==> Justified(view, v))
    && (forall s :: multiset(violations)[NodeMissing(s)] <= 1)
    && (DepthRespected(violations) ==>
          && (forall s :: Reachable(view.Graph(), view.root, s) ==> !view.Reply(s).DepsFailed?)
          && (forall s :: Reachable(view.Graph(), view.root, s) ==> Near(view.Graph(), view.root, s))
          && (forall s :: Reachable(view.Graph(), view.root, s) && view.Reply(s).DepsNotFound? && s !in view.dangling ==>
                NodeMissing(s) in violations)
          && CyclesMarked(view.Graph(), CyclesFound(violations), view.root)
          && (CycleFree(violations) ==> AcyclicFrom(view.Graph(), view.root)))
  }

  lemma FinishedSearchIsExact(view: View, steps: List<Step>)
    requires IsRun(view, steps)
    requires var t := After(view, steps);
             t.stack.Nil? && t.storageErr.None? && view.root in t.visited
    ensures Exact(view, After(view, steps).violations)
  {
    var t := After(view, steps);
    ReportsSound(view, steps);
    NoRepeatsInvariant(view, steps);
    if DepthRespected(t.violations) {
      AccountedInvariant(view, steps);
      ExploredInvariant(view, steps);
      MissingInvariant(view, steps);
      NearInvariant(view, steps);
      assert t.visited == Elements(t.finished);
      ClosedContainsReachable(view.Graph(), t.visited, view.root);
      var marks := CyclesFound(t.violations);
      assert marks == Reported(t.violations);
      FinishOrderMarksCycles(view.Graph(), marks, t.finished, view.root);
    }
  }
}
