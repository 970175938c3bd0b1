/** The lint rules over the dependency graph: dangling references and cycle
    detection, and the verdict they combine into (internal/linter/linter.go). */
module Linter {
  import opened Wrappers
  import opened DependencyGraph
  import opened SearchMachine

  datatype LintOutcome = InternalError | LintResult(violations: seq<Violation>, passed: bool)

  /** u continues t: same stack, and nothing is taken back. */
  ghost predicate Continues(t: Trace, u: Trace) {
    && t.stack == u.stack && t.visited <= u.visited
    && Elements(t.finished) <= Elements(u.finished)
    && (forall v :: v in t.violations ==> v in u.violations)
    && (t.storageErr.Some? ==> u == t)
  }

  lemma ContinuesOn(s: Trace, t: Trace, u: Trace)
    requires Continues(s, t) && Continues(t, u)
    ensures Continues(s, u)
  {
  }

  /** The first k dependencies were followed. */
  ghost predicate FollowedTo(t: Trace, deps: seq<Slug>, k: nat)
    requires k <= |deps|
  {
    t.storageErr.None? ==> forall j :: 0 <= j < k ==> Done(t, deps[j])
  }

  lemma FollowedNext(t: Trace, u: Trace, deps: seq<Slug>, k: nat)
    requires k < |deps| && FollowedTo(t, deps, k) && Continues(t, u)
    requires u.storageErr.None? ==> Done(u, deps[k])
    ensures FollowedTo(u, deps, k + 1)
  {
  }

  /** detectCycles' closure with its captured variables as fields. The ghost
      fields name the machine steps taken so far and the state they lead to. */
  class CycleSearch {
    ghost const view: View
    const backend: Backend
    const root: Slug
    const rootDeps: Option<seq<Slug>>
    const dangling: set<Slug>
    var visited: set<Slug>
    var inStack: set<Slug>
    var violations: seq<Violation>
    var storageErr: Option<Slug>
    ghost var steps: List<Step>
    ghost var trace: Trace
    ghost var lookups: List<Slug>  // the GetDependencies calls, the latest first

    /** The captured variables are those of the machine state. */
    ghost predicate Tracks(t: Trace)
      reads this
    {
      && visited == t.visited && violations == t.violations && storageErr == t.storageErr
      && inStack == Elements(t.stack)
    }

    ghost predicate Valid()
      reads this
    {
      && view == View(backend, root, rootDeps, dangling)
      && IsRun(view, steps) && trace == After(view, steps)
      && Tracks(trace) && lookups == trace.fetched
    }

    constructor (backend: Backend, root: Slug, rootDeps: Option<seq<Slug>>, dangling: set<Slug>)
      ensures Valid() && trace == INIT
      ensures view == View(backend, root, rootDeps, dangling)
    {
      this.backend, this.root, this.rootDeps, this.dangling := backend, root, rootDeps, dangling;
      this.view := View(backend, root, rootDeps, dangling);
      visited, inStack, violations, storageErr := {}, {}, [], None;
      steps, trace, lookups := Nil, INIT, Nil;
    }

    /** Takes one machine step; the caller then brings the variables along. */
    ghost method Record(step: Step)
      requires IsRun(view, steps) && trace == After(view, steps) && Allowed(view, trace, step)
      modifies this`steps, this`trace
      ensures IsRun(view, steps) && trace == After(view, steps)
      ensures trace == Apply(view, old(trace), step)
    {
      trace := Apply(view, trace, step);
      steps := Cons(step, steps);
    }

    /** The backend call, counted. */
    method GetDependencies(slug: Slug) returns (reply: DepsReply)
      modifies this`lookups
      ensures reply == backend.getDependencies(slug) && lookups == Cons(slug, old(lookups))
    {
      lookups := Cons(slug, lookups);
      reply := backend.getDependencies(slug);
    }

    /** The exits of dfs that only report: current is on the stack, or too deep. */
    method Report(v: Violation)
      requires Valid() && v in {CycleFound(v.location), TooDeep(v.location)}
      requires v == CycleFound(v.location) ==> Allowed(view, trace, ReportCycle(v.location))
      requires v == TooDeep(v.location) ==> Allowed(view, trace, CutDepth(v.location))
      modifies this
      ensures Valid() && violations == old(violations) + [v] && v.location in visited
      ensures Continues(old(trace), trace)
    {
      StackInvariant(view, steps);
      if v.severity == Error {
        Record(ReportCycle(v.location));
      } else {
        Record(CutDepth(v.location));
        visited := visited + {v.location};
      }
      violations := violations + [v];
    }

    /** Marks current visited, puts it on the stack and obtains its dependencies:
        from the prefetched list for the root, from the backend otherwise. */
    method Push(current: Slug) returns (reply: DepsReply)
      requires Valid() && Allowed(view, trace, Enter(current))
      modifies this
      ensures Valid() && reply == view.Reply(current)
      ensures trace == Apply(view, old(trace), Enter(current))
    {
      Record(Enter(current));
      visited := visited + {current};
      inStack := inStack + {current};
      if current == root && rootDeps.Some? {
        reply := Refs(rootDeps.value);
      } else {
        reply := GetDependencies(current);
      }
    }

    /** Takes current off the stack, reporting it first when it does not exist
        and keeping the storage error when its look-up failed. */
    method Pop(current: Slug, reply: DepsReply)
      requires Valid() && OnTop(trace.stack, current) && reply == view.Reply(current)
      requires if reply.Found() then storageErr.None? ==> Followed(view, trace, current) else storageErr.None?
      modifies this
      ensures Valid() && trace.stack == old(trace).stack.tail
      ensures visited == old(visited) && trace.finished == Cons(current, old(trace).finished)
      ensures storageErr == if reply.DepsFailed? then Some(current) else old(storageErr)
      ensures forall v :: v in old(violations) ==> v in violations
    {
      StackInvariant(view, steps);
      if reply.DepsNotFound? {
        Record(LeaveMissing(current));
        if current !in dangling {
          violations := violations + [NodeMissing(current)];
        }
      } else if reply.DepsFailed? {
        Record(LeaveFailed(current));
        storageErr := Some(current);
      } else {
        Record(LeaveFollowed(current));
      }
      inStack := inStack - {current};
    }

    /** One call of dfs. The stack is exactly the walk from the root and depth is
        its size; every exit, also after a storage error, restores the stack. */
    method Dfs(current: Slug, depth: nat)
      requires Valid() && Next(view, trace.stack, current)
      requires depth == |inStack| == Length(trace.stack) <= MAX_CYCLE_DEPTH + 1
      modifies this
      ensures Valid() && Continues(old(trace), trace)
      ensures storageErr.None? ==> Done(trace, current)
      ensures old(storageErr.None? && current in inStack) ==> violations == old(violations) + [CycleFound(current)]
      ensures old(storageErr.None? && current !in inStack && current in visited) ==> trace == old(trace)
      ensures old(storageErr.None? && current !in visited) && depth > MAX_CYCLE_DEPTH ==>
                violations == old(violations) + [TooDeep(current)]
      decreases MAX_CYCLE_DEPTH + 1 - depth, 1
    {
      if storageErr.Some? {
        return;
      }
      if current in inStack {
        StackInvariant(view, steps);
        Report(CycleFound(current));
        return;
      }
      if current in visited {
        AccountedInvariant(view, steps);
        return;
      }
      if depth > MAX_CYCLE_DEPTH {
        Report(TooDeep(current));
        return;
      }
      var reply := Push(current);
      if reply.Found() {
        Follow(reply.Targets(), depth);
      }
      Pop(current, reply);
    }

    /** The loop of dfs over the dependencies of the slug on top of the stack. */
    method Follow(deps: seq<Slug>, depth: nat)
      requires Valid() && trace.stack.Cons? && Length(trace.stack) == depth + 1 <= MAX_CYCLE_DEPTH + 1
      requires forall d :: d in deps ==> d in view.Graph()(trace.stack.head)
      modifies this
      ensures Valid() && Continues(old(trace), trace)
      ensures storageErr.None? ==> forall d :: d in deps ==> Done(trace, d)
      decreases MAX_CYCLE_DEPTH - depth, 2
    {
      for k := 0 to |deps|
        invariant Valid() && Continues(old(trace), trace)
        invariant FollowedTo(trace, deps, k)
      {
        StackInvariant(view, steps);
        DistinctSize(trace.stack);
        assert deps[k] in deps;
        ghost var before := trace;
        Dfs(deps[k], depth + 1);
        ContinuesOn(old(trace), before, trace);
        FollowedNext(before, trace, deps, k);
      }
    }
  }

  /** Depth-first search from slug; None when a storage error ended it. */
  method DetectCycles(backend: Backend, slug: Slug, rootDeps: Option<seq<Slug>>, danglingSet: set<Slug>)
    returns (violations: Option<seq<Violation>>, ghost lookups: List<Slug>)
    ensures violations.None? ==> exists s :: ErrorJustified(View(backend, slug, rootDeps, danglingSet), s)
    ensures violations.Some? ==> Exact(View(backend, slug, rootDeps, danglingSet), violations.value)
    ensures Distinct(lookups) && (rootDeps.Some? ==> slug !in Elements(lookups))
  {
    var search := new CycleSearch(backend, slug, rootDeps, danglingSet);
    search.Dfs(slug, 0);
    NoRepeatsInvariant(search.view, search.steps);
    lookups := search.lookups;
    if search.storageErr.Some? {
      ReportsSound(search.view, search.steps);
      return None, lookups;
    }
    FinishedSearchIsExact(search.view, search.steps);
    violations := Some(search.violations);
  }

  /** One violation for each entry of the list that does not exist, in its order. */
  function DanglingOf(backend: Backend, deps: seq<Slug>): seq<Violation> {
    if deps == [] then []
    else
      var last := deps[|deps| - 1];
      DanglingOf(backend, deps[..|deps| - 1]) + if backend.getSpec(last).SpecNotFound? then [Dangling(last)] else []
  }

  /** As a set these are the missing dependencies, and each is reported as often as it
      is listed. */
  lemma {:induction false} DanglingOfExact(backend: Backend, deps: seq<Slug>, v: Violation)
    ensures multiset(DanglingOf(backend, deps))[v] ==
            if v == Violation(DanglingRef, Error, v.location) && backend.getSpec(v.location).SpecNotFound? then multiset(deps)[v.location] else 0
  {
    if deps != [] {
      var before, last := deps[..|deps| - 1], deps[|deps| - 1];
      DanglingOfExact(backend, before, v);
      assert deps == before + [last];
      assert multiset(deps) == multiset(before) + multiset{last};
    }
  }

  /** Dependencies that GetSpec does not find; None when GetSpec fails on one. */
  method CheckDanglingDeps(backend: Backend, deps: seq<Slug>)
    returns (violations: Option<seq<Violation>>, danglingSet: set<Slug>)
    ensures violations.None? <==> exists d :: d in deps && backend.getSpec(d).SpecFailed?
    ensures violations.Some? ==>
              && violations.value == DanglingOf(backend, deps)
              && danglingSet == (set d | d in deps && backend.getSpec(d).SpecNotFound?)
              && forall v :: v in violations.value <==> v.location in danglingSet && v == Violation(DanglingRef, Error, v.location)
  {
    var found: seq<Violation> := [];
    danglingSet := {};
    for i := 0 to |deps|
      invariant forall d :: d in deps[..i] ==> !backend.getSpec(d).SpecFailed?
      invariant forall d :: d in danglingSet <==> d in deps[..i] && backend.getSpec(d).SpecNotFound?
      invariant found == DanglingOf(backend, deps[..i])
      invariant forall v :: v in found <==> v.location in danglingSet && v == Dangling(v.location)
    {
      assert deps[..i + 1] == deps[..i] + [deps[i]];
      assert deps[..i + 1][..i] == deps[..i];
      match backend.getSpec(deps[i])
      case SpecFound =>
      case SpecNotFound =>
        danglingSet := danglingSet + {deps[i]};
        found := found + [Dangling(deps[i])];
      case SpecFailed =>
        return None, danglingSet;
    }
    assert deps[..|deps|] == deps;
    violations := Some(found);
  }

  // ---------------------------------------------------------------- the verdict

  ghost function GraphOf(backend: Backend): Graph {
    s => backend.getDependencies(s).Targets()
  }

  /** GetSpec and GetDependencies never fail and agree on which slugs exist. */
  ghost predicate Consistent(backend: Backend) {
    forall s :: !backend.getSpec(s).SpecFailed? && !backend.getDependencies(s).DepsFailed?
                && (backend.getSpec(s).SpecFound? <==> backend.getDependencies(s).Found())
  }

  /** What a passed lint is meant to say about the graph below slug. */
  ghost predicate Healthy(backend: Backend, slug: Slug) {
    && (forall s :: Reachable(GraphOf(backend), slug, s) ==> backend.getSpec(s).SpecFound?)
    && AcyclicFrom(GraphOf(backend), slug)
  }

  /** What lintSpec reports after the schema violations, by the two graph rules. */
  ghost predicate GraphReport(view: View, dangling: seq<Violation>, cycles: seq<Violation>) {
    var deps := view.backend.getDependencies(view.root);
    && deps.Found()
    && (forall s :: view.Reply(s).Targets() == GraphOf(view.backend)(s) && (view.Reply(s).Found() <==> view.backend.getDependencies(s).Found()))
    && view.dangling == (set d | d in deps.Targets() && view.backend.getSpec(d).SpecNotFound?)
    && dangling == DanglingOf(view.backend, deps.Targets())
    && (forall v :: v in dangling <==> v.location in view.dangling && v == Dangling(v.location))
    && Exact(view, cycles)
  }

  /** Every reachable slug is within the depth limit, by its shortest path. */
  ghost predicate AllNear(backend: Backend, slug: Slug) {
    forall s :: Reachable(GraphOf(backend), slug, s) ==> Near(GraphOf(backend), slug, s)
  }

  /** Look-ups that lintSpec cannot do without. */
  predicate CannotStart(backend: Backend, slug: Slug) {
    var deps := backend.getDependencies(slug);
    !deps.Found() || exists d :: d in deps.Targets() && backend.getSpec(d).SpecFailed?
  }

  ghost predicate SearchFails(backend: Backend, slug: Slug) {
    exists s :: Reachable(GraphOf(backend), slug, s) && backend.getDependencies(s).DepsFailed?
  }

  /** A storage error of the search is one of the backend's own graph. */
  lemma ErrorIsReal(view: View)
    requires forall s :: view.Graph()(s) == GraphOf(view.backend)(s)
    requires exists s :: ErrorJustified(view, s)
    ensures SearchFails(view.backend, view.root)
  {
    SameGraphs(view.Graph(), GraphOf(view.backend));
    var s :| ErrorJustified(view, s);
    assert Reachable(GraphOf(view.backend), view.root, s) && view.backend.getDependencies(s).DepsFailed?;
  }

  /** Every cycle below slug visits one that violations report for it. */
  ghost predicate CyclesReported(backend: Backend, slug: Slug, violations: seq<Violation>) {
    forall v, w :: Reachable(GraphOf(backend), slug, v) && Cycle(GraphOf(backend), v, w) ==>
      exists s :: s in w.Slugs() && Violation(GraphCycle, Error, s) in violations
  }

  /** The depth limit cut something off. */
  ghost predicate CutOff(violations: seq<Violation>) {
    exists s :: Violation(GraphCycle, Warning, s) in violations
  }

  lemma AllCyclesReported(view: View, before: seq<Violation>, cycles: seq<Violation>)
    requires forall s :: view.Graph()(s) == GraphOf(view.backend)(s)
    requires Exact(view, cycles) && !CutOff(before + cycles)
    ensures CyclesReported(view.backend, view.root, before + cycles)
  {
    var g := GraphOf(view.backend);
    SameGraphs(view.Graph(), g);
    forall s ensures TooDeep(s) !in cycles {
      assert Violation(GraphCycle, Warning, s) !in before + cycles;
    }
    forall v, w | Reachable(g, view.root, v) && Cycle(g, v, w)
      ensures exists s :: s in w.Slugs() && Violation(GraphCycle, Error, s) in before + cycles
    {
      var s :| s in w.Slugs() && s in CyclesFound(cycles);
      assert Violation(GraphCycle, Error, s) in before + cycles;
    }
  }

  lemma SilenceMeansHealthy(view: View, dangling: seq<Violation>, cycles: seq<Violation>)
    requires GraphReport(view, dangling, cycles) && Consistent(view.backend)
    requires dangling == [] && cycles == []
    ensures Healthy(view.backend, view.root) && AllNear(view.backend, view.root)
  {
    SameGraphs(view.Graph(), GraphOf(view.backend));
    forall d ensures d !in view.dangling {
      assert Dangling(d) !in dangling;
    }
  }

  /** A dangling reference or a report of the search contradicts a healthy graph
      whose paths respect the limit. */
  lemma ReportMeansTrouble(view: View, dangling: seq<Violation>, cycles: seq<Violation>)
    requires GraphReport(view, dangling, cycles) && Consistent(view.backend)
    requires dangling != [] || cycles != []
    ensures !Healthy(view.backend, view.root) || !NoWalkLongerThan(GraphOf(view.backend), view.root, MAX_CYCLE_DEPTH)
  {
    var g := GraphOf(view.backend);
    SameGraphs(view.Graph(), g);
    if dangling != [] {
      var d := dangling[0].location;
      assert dangling[0] in dangling && d in view.dangling;
      var start := Here(view.root);
      assert start.First() == view.root && start.In(g);
      assert Connects(g, view.root, Via(start, d), d);
    } else {
      var v := cycles[0];
      assert v in cycles && Justified(view, v);
    }
  }

  /** A missing reachable slug is never reported by both rules, nor twice by the
      search; it is reported by one of them if it is a direct dependency, or if the
      depth limit did not cut the search short. */
  lemma MissingReportedOnce(view: View, dangling: seq<Violation>, cycles: seq<Violation>, s: Slug)
    requires GraphReport(view, dangling, cycles) && Consistent(view.backend)
    requires Reachable(GraphOf(view.backend), view.root, s) && IsMissing(view.backend, s)
    ensures !(Dangling(s) in dangling + cycles && NodeMissing(s) in dangling + cycles)
    ensures multiset(dangling + cycles)[NodeMissing(s)] <= 1
    ensures Dangling(s) in dangling + cycles <==> s in GraphOf(view.backend)(view.root)
    ensures DepthRespected(cycles) ==> Dangling(s) in dangling + cycles || NodeMissing(s) in dangling + cycles
  {
    SameGraphs(view.Graph(), GraphOf(view.backend));
    assert Justified(view, NodeMissing(s)) || NodeMissing(s) !in cycles;
    assert Dangling(s) !in cycles by {
      assert !Justified(view, Dangling(s));
    }
    assert multiset(dangling + cycles) == multiset(dangling) + multiset(cycles);
    assert NodeMissing(s) !in dangling;
  }

  predicate IsMissing(backend: Backend, s: Slug) {
    backend.getSpec(s).SpecNotFound?
  }

  /** All rules against one spec. schemaViolations is what ValidateSchema says.
      The verdict is exact: with a consistent backend, passing means that the
      schema holds, that everything reachable exists, within the depth limit, and
      that nothing reachable lies on a cycle, and all that is enough to pass unless
      some dependency path is longer than the depth limit. Unless that limit cut the
      search short, every cycle is reported at one of its slugs. On any backend an
      internal error means that a look-up failed or that the spec is not there. */
  method LintSpec(backend: Backend, slug: Slug, schemaViolations: seq<Violation>) returns (r: LintOutcome)
    requires forall v :: v in schemaViolations ==> v.rule == SchemaRule
    ensures r.LintResult? ==> (r.passed <==> r.violations == [])
    ensures r.LintResult? && Consistent(backend) && r.passed ==>
              schemaViolations == [] && Healthy(backend, slug) && AllNear(backend, slug)
    ensures r.LintResult? && !CutOff(r.violations) ==> CyclesReported(backend, slug, r.violations)
    ensures r.InternalError? ==> CannotStart(backend, slug) || SearchFails(backend, slug)
    ensures CannotStart(backend, slug) ==> r.InternalError?
    ensures Consistent(backend) && backend.getSpec(slug).SpecFound? ==> r.LintResult?
    ensures Consistent(backend) && schemaViolations == [] && Healthy(backend, slug) &&
            backend.getSpec(slug).SpecFound? && NoWalkLongerThan(GraphOf(backend), slug, 1000) ==>
              r == LintResult([], true)
    ensures r.LintResult? ==>
              exists view: View, dangling, cycles ::
                && view.backend == backend && view.root == slug && GraphReport(view, dangling, cycles)
                && r.violations == schemaViolations + dangling + cycles
  {
    var reply := backend.getDependencies(slug);
    if !reply.Found() {
      return InternalError;
    }
    var dangling, danglingSet := CheckDanglingDeps(backend, reply.Targets());
    if dangling.None? {
      return InternalError;
    }
    var rootDeps := if reply.NilRefs? then None else Some(reply.refs);
    var cycles, lookups := DetectCycles(backend, slug, rootDeps, danglingSet);
    ghost var view := View(backend, slug, rootDeps, danglingSet);
    if cycles.None? {
      ErrorIsReal(view);
      return InternalError;
    }
    assert GraphReport(view, dangling.value, cycles.value);
    var violations := schemaViolations + dangling.value + cycles.value;
    if !CutOff(violations) {
      AllCyclesReported(view, schemaViolations + dangling.value, cycles.value);
    }
    if Consistent(backend) {
      if dangling.value == [] && cycles.value == [] {
        SilenceMeansHealthy(view, dangling.value, cycles.value);
      } else {
        ReportMeansTrouble(view, dangling.value, cycles.value);
      }
    }
    r := LintResult(violations, violations == []);
  }
}
