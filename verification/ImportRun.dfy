/** Engine.writeEntities (internal/export/engine.go:371-623) as the loops it is:
    it issues the planned calls one by one up to the first fatal failure, and
    accounts for every item it could not store. */
module ImportRun {
  import opened Wrappers
  import opened Document
  import opened ImportPlan
  import opened ImportBlocks

  /** The kinds of items whose failures are only warned about. */
  datatype Kind = EdgeKind | FindingKind | ConversationKind | MappingKind | EventKind

  /** How many items of a kind a call stores. */
  function Units(c: Call, k: Kind): nat {
    match c
    case AddEdge(_) => if k.EdgeKind? then 1 else 0
    case StoreFindings(_, inputs) => if k.FindingKind? then |inputs| else 0
    case RecordConversation(_) => if k.ConversationKind? then 1 else 0
    case CreateSyncMapping(_) => if k.MappingKind? then 1 else 0
    case RecordBlocker(_) => if k.EventKind? then 1 else 0
    case RecordProgress(_) => if k.EventKind? then 1 else 0
    case _ => 0
  }

  predicate Counted(c: Call) {
    c.AddEdge? || c.StoreFindings? || c.RecordConversation? || c.CreateSyncMapping? || c.RecordBlocker? || c.RecordProgress?
  }

  function Weight(calls: List<Call>, k: Kind): nat {
    match calls
    case Nil => 0
    case Cons(c, rest) => Units(c, k) + Weight(rest, k)
  }

  function Items(d: Data, k: Kind): nat {
    match k
    case EdgeKind => |d.edges|
    case FindingKind => |d.findings|
    case ConversationKind => |d.conversations|
    case MappingKind => |d.mappings|
    case EventKind => |d.events|
  }

  // ---------------------------------------------------------------- what the plan stores

  lemma {:induction false} ChainWeight(s: Spec, i: nat, rest: Plan, k: Kind)
    ensures Weight(ChainThen(s, i, rest), k) == Weight(rest, k)
    decreases |CHAIN| - i
  {
    if !(i + 1 >= |CHAIN| || StageOrder(CHAIN[i + 1]) > StageOrder(s.stage)) {
      ChainWeight(s, i + 1, rest, k);
    }
  }

  lemma SpecWeight(s: Spec, rest: Plan, k: Kind)
    ensures Weight(SpecThen(s, rest), k) == Weight(rest, k)
  {
    var notes := If(s.notes != "", UpdateNotes(s.slug, s.notes), rest);
    ChainWeight(s, 0, If(Terminal(s.stage), TransitionStage(s.slug, "done", s.stage), notes), k);
    OutputsWeight(s, StageThen(s, notes), k);
  }

  lemma IfWeight(wanted: bool, c: Call, rest: Plan, k: Kind)
    requires !Counted(c)
    ensures Weight(If(wanted, c, rest), k) == Weight(rest, k)
  {
  }

  lemma OutputsWeight(s: Spec, rest: Plan, k: Kind)
    ensures Weight(OutputsThen(s, rest), k) == Weight(rest, k)
  {
    var p4 := If(s.hasDecompose, StoreOutput(s.slug, Decompose), rest);
    var p3 := If(s.hasSpecify, StoreOutput(s.slug, Specify), p4);
    IfWeight(s.hasDecompose, StoreOutput(s.slug, Decompose), rest, k);
    IfWeight(s.hasSpecify, StoreOutput(s.slug, Specify), p4, k);
    IfWeight(s.hasShape, StoreOutput(s.slug, Shape), p3, k);
    IfWeight(s.hasSpark, StoreOutput(s.slug, Spark), If(s.hasShape, StoreOutput(s.slug, Shape), p3), k);
  }

  lemma {:induction false} SpecsWeight(d: Data, i: nat, rest: Plan, k: Kind)
    ensures Weight(SpecsThen(d, i, rest), k) == Weight(rest, k)
    decreases |d.specs| - i
  {
    if i < |d.specs| {
      SpecsWeight(d, i + 1, rest, k);
      SpecWeight(d.specs[i], SpecsThen(d, i + 1, rest), k);
    }
  }

  lemma {:induction false} DecisionsWeight(d: Data, i: nat, rest: Plan, k: Kind)
    ensures Weight(DecisionsThen(d, i, rest), k) == Weight(rest, k)
    decreases |d.decisions| - i
  {
    if i < |d.decisions| {
      DecisionsWeight(d, i + 1, rest, k);
    }
  }

  lemma {:induction false} SlicesWeight(d: Data, i: nat, rest: Plan, k: Kind)
    ensures Weight(SlicesThen(d, i, rest), k) == Weight(rest, k)
    decreases |d.slices| - i
  {
    if i < |d.slices| {
      SlicesWeight(d, i + 1, rest, k);
      var s, after := d.slices[i], SlicesThen(d, i + 1, rest);
      IfWeight(s.status == "done", CompleteSlice(s.slug), after, k);
      IfWeight((s.status == "claimed" || s.status == "done") && s.assignedTo != "", ClaimSlice(s.slug, s.assignedTo),
               If(s.status == "done", CompleteSlice(s.slug), after), k);
    }
  }

  lemma {:induction false} EdgesWeight(d: Data, i: nat, rest: Plan, k: Kind)
    requires i <= |d.edges|
    ensures Weight(EdgesThen(d, i, rest), k) == Weight(rest, k) + if k.EdgeKind? then |d.edges| - i else 0
    decreases |d.edges| - i
  {
    if i < |d.edges| {
      EdgesWeight(d, i + 1, rest, k);
    }
  }

  function GroupSizes(findings: seq<Finding>, order: seq<GroupKey>): nat {
    if order == [] then 0 else |GroupInputs(findings, order[0])| + GroupSizes(findings, order[1..])
  }

  lemma {:induction false} GroupsWeight(d: Data, order: seq<GroupKey>, rest: Plan, k: Kind)
    ensures Weight(GroupsThen(d, order, rest), k) ==
            Weight(rest, k) + if k.FindingKind? then GroupSizes(d.findings, order) else 0
  {
    if order != [] {
      GroupsWeight(d, order[1..], rest, k);
    }
  }

  /** The sizes of the groups add up to the length of all groups in a row. */
  lemma {:induction false} SizesOfRegrouped(findings: seq<Finding>, order: seq<GroupKey>)
    ensures GroupSizes(findings, order) == |Regrouped(findings, order)|
  {
    if order != [] {
      var before, last := order[..|order| - 1], order[|order| - 1];
      SizesOfRegrouped(findings, before);
      SizesSnoc(findings, before, last);
      assert order == before + [last];
    }
  }

  lemma {:induction false} SizesSnoc(findings: seq<Finding>, order: seq<GroupKey>, last: GroupKey)
    ensures GroupSizes(findings, order + [last]) == GroupSizes(findings, order) + |GroupInputs(findings, last)|
  {
    if order == [] {
      assert GroupSizes(findings, [last]) == |GroupInputs(findings, last)| + GroupSizes(findings, [last][1..]);
    } else {
      SizesSnoc(findings, order[1..], last);
      assert (order + [last])[1..] == order[1..] + [last];
    }
  }

  lemma {:induction false} ConversationsWeight(d: Data, i: nat, rest: Plan, k: Kind)
    requires i <= |d.conversations|
    ensures Weight(ConversationsThen(d, i, rest), k) == Weight(rest, k) + if k.ConversationKind? then |d.conversations| - i else 0
    decreases |d.conversations| - i
  {
    if i < |d.conversations| {
      ConversationsWeight(d, i + 1, rest, k);
    }
  }

  lemma {:induction false} MappingsWeight(d: Data, i: nat, rest: Plan, k: Kind)
    requires i <= |d.mappings|
    ensures Weight(MappingsThen(d, i, rest), k) == Weight(rest, k) + if k.MappingKind? then |d.mappings| - i else 0
    decreases |d.mappings| - i
  {
    if i < |d.mappings| {
      MappingsWeight(d, i + 1, rest, k);
    }
  }

  lemma {:induction false} EventsWeight(d: Data, i: nat, rest: Plan, k: Kind)
    requires i <= |d.events|
    ensures Weight(EventsThen(d, i, rest), k) == Weight(rest, k) + if k.EventKind? then |d.events| - i else 0
    decreases |d.events| - i
  {
    if i < |d.events| {
      EventsWeight(d, i + 1, rest, k);
    }
  }

  lemma {:induction false} LayersWeight(layers: seq<string>, i: nat, rest: Plan, k: Kind)
    ensures Weight(LayersThen(layers, i, rest), k) == Weight(rest, k)
    decreases |layers| - i
  {
    if i < |layers| {
      LayersWeight(layers, i + 1, rest, k);
    }
  }

  lemma RecordsWeight(d: Data, k: Kind)
    ensures Weight(RecordsThen(d), k) ==
            if k.ConversationKind? || k.MappingKind? || k.EventKind? then Items(d, k) else 0
  {
    EventsWeight(d, 0, Nil, k);
    MappingsWeight(d, 0, EventsThen(d, 0, Nil), k);
    ConversationsWeight(d, 0, MappingsThen(d, 0, EventsThen(d, 0, Nil)), k);
  }

  /** The plan stores every item of every kind once. */
  lemma PlanWeight(doc: Document, layers: seq<string>, order: seq<GroupKey>, k: Kind)
    requires Enumerates(order, GroupKeys(doc.data.findings))
    ensures Weight(FullPlan(doc, layers, order), k) == Items(doc.data, k)
  {
    var d, p := doc.data, RecordsThen(doc.data);
    RecordsWeight(d, k);
    GroupsWeight(d, order, p, k);
    SizesOfRegrouped(d.findings, order);
    GroupingConserves(d.findings, order);
    p := GroupsThen(d, order, p);
    EdgesWeight(d, 0, p, k);
    p := EdgesThen(d, 0, p);
    SlicesWeight(d, 0, p, k);
    p := SlicesThen(d, 0, p);
    DecisionsWeight(d, 0, p, k);
    SpecsWeight(d, 0, DecisionsThen(d, 0, p), k);
    LayersWeight(layers, 0, EntityPlan(d, order), k);
  }

  lemma {:induction false} RewindWeight(done: List<Call>, todo: Plan, k: Kind)
    ensures Weight(Rewind(done, todo), k) == Weight(done, k) + Weight(todo, k)
  {
    if done.Cons? {
      RewindWeight(done.tail, Cons(done.head, todo), k);
    }
  }

  // ---------------------------------------------------------------- the run

  /** The calls that failed, given which positions fail; latest first, like the calls. */
  function FailedCalls(fails: nat -> bool, calls: List<Call>): List<Call> {
    match calls
    case Nil => Nil
    case Cons(c, before) => if fails(Length(before)) then Cons(c, FailedCalls(fails, before)) else FailedCalls(fails, before)
  }

  ghost predicate FatalsWorked(fails: nat -> bool, calls: List<Call>) {
    match calls
    case Nil => true
    case Cons(c, before) => (Fatal(c) ==> !fails(Length(before))) && FatalsWorked(fails, before)
  }

  /** The latest call was fatal and failed, and it is the only such one. */
  ghost predicate Halted(fails: nat -> bool, calls: List<Call>) {
    calls.Cons? && Fatal(calls.head) && fails(Length(calls.tail)) && FatalsWorked(fails, calls.tail)
  }

  /** How an import ended. */
  datatype Result = SchemaError | CallFailed | Imported

  class Importer {
    const fails: nat -> bool     // whether the i-th backend call fails
    var calls: List<Call>        // issued so far, the latest first
    var warnings: List<Call>     // the failed calls that were only warned about
    ghost const plan: Plan
    ghost var todo: Plan         // what the plan still asks for
    var project: nat
    var constitution: nat
    var specs: nat
    var decisions: nat
    var slices: nat
    var edges: nat
    var findings: nat
    var changeLogs: nat
    var conversations: nat
    var mappings: nat
    var events: nat

    constructor (fails: nat -> bool, ghost plan: Plan)
      ensures this.fails == fails && this.plan == plan && todo == plan && calls == Nil
      ensures Running() && OnPlan()
      ensures project == constitution == specs == decisions == slices == changeLogs == 0
    {
      this.fails, this.plan, calls, warnings, todo := fails, plan, Nil, Nil, plan;
      project, constitution, specs, decisions, slices, changeLogs := 0, 0, 0, 0, 0, 0;
      edges, findings, conversations, mappings, events := 0, 0, 0, 0, 0;
    }

    function Stored(k: Kind): nat
      reads `edges, `findings, `conversations, `mappings, `events
    {
      match k
      case EdgeKind => edges
      case FindingKind => findings
      case ConversationKind => conversations
      case MappingKind => mappings
      case EventKind => events
    }

    /** The calls are an initial part of the plan. */
    ghost predicate OnPlan()
      reads `calls, `todo
    {
      Rewind(calls, todo) == plan
    }

    /** No fatal call failed, every failure is a warning, and every item that a call
        was to store is either counted or in a warning. */
    ghost predicate Running()
      reads `calls, `warnings, `edges, `findings, `conversations, `mappings, `events
    {
      && FatalsWorked(fails, calls) && warnings == FailedCalls(fails, calls)
      && forall k :: Stored(k) + Weight(warnings, k) == Weight(calls, k)
    }

    /** A part of the import either did all its calls, so that rest is next, or was
        stopped by the failure of a fatal one. */
    ghost predicate Went(ok: bool, rest: Plan)
      reads `calls, `warnings, `todo, `edges, `findings, `conversations, `mappings, `events
    {
      && OnPlan()
      && if ok then Running() && todo == rest else Halted(fails, calls)
    }

    /** The next backend call of the plan, whose result is not counted by itself. */
    method Attempt(c: Call, ghost rest: Plan) returns (ok: bool)
      requires Running() && OnPlan() && todo == Cons(c, rest) && !Counted(c)
      modifies this`calls, this`warnings, this`todo
      ensures Went(ok || !Fatal(c), rest)
    {
      ok := !fails(Length(calls));
      calls := Cons(c, calls);
      todo := rest;
      if !ok && !Fatal(c) {
        warnings := Cons(c, warnings);
      }
    }

    /** A call that is made only for some items. */
    method AttemptIf(wanted: bool, c: Call, ghost rest: Plan) returns (ok: bool)
      requires Running() && OnPlan() && todo == If(wanted, c, rest) && !Counted(c)
      modifies this`calls, this`warnings, this`todo
      ensures Went(ok || !Fatal(c), rest)
    {
      ok := true;
      if wanted {
        ok := Attempt(c, rest);
      }
    }

    /** A call, made only for some items, whose failure is a warning. */
    method WarnIf(wanted: bool, c: Call, ghost rest: Plan)
      requires Running() && OnPlan() && todo == If(wanted, c, rest) && !Counted(c) && (wanted ==> !Fatal(c))
      modifies this`calls, this`warnings, this`todo
      ensures Went(true, rest)
    {
      if wanted {
        var _ := Attempt(c, rest);
      }
    }

    /** A call that stores counted items: a failure is a warning and the loop goes on. */
    method Store(c: Call, ghost rest: Plan)
      requires Running() && OnPlan() && todo == Cons(c, rest) && Counted(c)
      modifies this`calls, this`warnings, this`todo, this`edges, this`findings, this`conversations, this`mappings, this`events
      ensures Went(true, rest)
    {
      var ok := !fails(Length(calls));
      calls := Cons(c, calls);
      todo := rest;
      if ok {
        Count(c);
      } else {
        warnings := Cons(c, warnings);
      }
    }

    /** The counter that a stored item goes to. */
    method Count(c: Call)
      requires Counted(c)
      modifies this`edges, this`findings, this`conversations, this`mappings, this`events
      ensures forall k :: Stored(k) == old(Stored(k)) + Units(c, k)
    {
      match c
      case AddEdge(_) => edges := edges + 1;
      case StoreFindings(_, inputs) => findings := findings + |inputs|;
      case RecordConversation(_) => conversations := conversations + 1;
      case CreateSyncMapping(_) => mappings := mappings + 1;
      case RecordBlocker(_) => events := events + 1;
      case RecordProgress(_) => events := events + 1;
    }

    method WriteLayers(layers: seq<string>, ghost rest: Plan) returns (ok: bool)
      requires Running() && OnPlan() && todo == LayersThen(layers, 0, rest)
      modifies this`calls, this`warnings, this`todo, this`constitution
      ensures Went(ok, rest) && (ok ==> constitution == old(constitution) + |layers|)
    {
      for i := 0 to |layers|
        invariant Running() && OnPlan() && todo == LayersThen(layers, i, rest)
        invariant constitution == old(constitution) + i
      {
        ok := Attempt(UpdateConstitution(layers[i]), LayersThen(layers, i + 1, rest));
        if !ok {
          return;
        }
        constitution := constitution + 1;
      }
      ok := true;
    }

    method WriteOutputs(s: Spec, ghost rest: Plan) returns (ok: bool)
      requires Running() && OnPlan() && todo == OutputsThen(s, rest)
      modifies this`calls, this`warnings, this`todo
      ensures Went(ok, rest)
    {
      ghost var p4 := If(s.hasDecompose, StoreOutput(s.slug, Decompose), rest);
      ghost var p3 := If(s.hasSpecify, StoreOutput(s.slug, Specify), p4);
      ghost var p2 := If(s.hasShape, StoreOutput(s.slug, Shape), p3);
      ok := AttemptIf(s.hasSpark, StoreOutput(s.slug, Spark), p2);
      if !ok {
        return;
      }
      ok := AttemptIf(s.hasShape, StoreOutput(s.slug, Shape), p3);
      if !ok {
        return;
      }
      ok := AttemptIf(s.hasSpecify, StoreOutput(s.slug, Specify), p4);
      if !ok {
        return;
      }
      ok := AttemptIf(s.hasDecompose, StoreOutput(s.slug, Decompose), rest);
    }

    /** Steps through the stages after decompose, up to the target. */
    method WriteChain(s: Spec, ghost rest: Plan) returns (ok: bool)
      requires Running() && OnPlan() && todo == ChainThen(s, 0, rest)
      modifies this`calls, this`warnings, this`todo
      ensures Went(ok, rest)
    {
      for i := 0 to |CHAIN| - 1
        invariant Running() && OnPlan() && todo == ChainThen(s, i, rest)
      {
        var from, to := CHAIN[i], CHAIN[i + 1];
        if StageOrder(to) > StageOrder(s.stage) {
          break;
        }
        ok := Attempt(TransitionStage(s.slug, from, to), ChainThen(s, i + 1, rest));
        if !ok {
          return;
        }
      }
      ok := true;
    }

    /** Stage and notes of a spec whose outputs are stored. A failed last step to a
        terminal stage and failed notes are warnings. */
    method WriteStage(s: Spec, ghost rest: Plan) returns (ok: bool)
      requires Running() && OnPlan() && todo == StageThen(s, If(s.notes != "", UpdateNotes(s.slug, s.notes), rest))
      modifies this`calls, this`warnings, this`todo
      ensures Went(ok, rest)
    {
      ghost var notes := If(s.notes != "", UpdateNotes(s.slug, s.notes), rest);
      if StageOrder(s.stage) > StageOrder("decompose") {
        ok := WriteChain(s, If(Terminal(s.stage), TransitionStage(s.slug, "done", s.stage), notes));
        if !ok {
          return;
        }
        WarnIf(Terminal(s.stage), TransitionStage(s.slug, "done", s.stage), notes);
      }
      WarnIf(s.notes != "", UpdateNotes(s.slug, s.notes), rest);
      ok := true;
    }

    method WriteSpec(s: Spec, ghost rest: Plan) returns (ok: bool)
      requires Running() && OnPlan() && todo == SpecThen(s, rest)
      modifies this`calls, this`warnings, this`todo, this`specs
      ensures Went(ok, rest) && (ok ==> specs == old(specs) + 1)
    {
      ghost var stage := StageThen(s, If(s.notes != "", UpdateNotes(s.slug, s.notes), rest));
      var provenance := s.provenance;
      if provenance == "" {
        provenance := AUTHORED;
      }
      ok := Attempt(CreateSpec(s, provenance, provenance != AUTHORED), OutputsThen(s, stage));
      if !ok {
        return;
      }
      ok := WriteOutputs(s, stage);
      if !ok {
        return;
      }
      ok := WriteStage(s, rest);
      if ok {
        specs := specs + 1;
      }
    }

    method WriteSpecs(d: Data, ghost rest: Plan) returns (ok: bool)
      requires Running() && OnPlan() && todo == SpecsThen(d, 0, rest)
      modifies this`calls, this`warnings, this`todo, this`specs
      ensures Went(ok, rest) && (ok ==> specs == old(specs) + |d.specs|)
    {
      for i := 0 to |d.specs|
        invariant Running() && OnPlan() && todo == SpecsThen(d, i, rest)
        invariant specs == old(specs) + i
      {
        ghost var after := SpecsThen(d, i + 1, rest);
        assert todo == SpecThen(d.specs[i], after);
        ok := WriteSpec(d.specs[i], after);
        if !ok {
          return;
        }
      }
      ok := true;
    }

    method WriteDecision(x: Decision, ghost rest: Plan) returns (ok: bool)
      requires Running() && OnPlan() && todo == DecisionThen(x, rest)
      modifies this`calls, this`warnings, this`todo
      ensures Went(ok, rest)
    {
      var restore := x.status != "" && x.status != "proposed";
      var update := UpdateDecision(x.slug, x.status, x.supersededBy);
      ok := Attempt(CreateDecision(x), If(restore, update, rest));
      if ok {
        WarnIf(restore, update, rest);
      }
    }

    method WriteDecisions(d: Data, ghost rest: Plan) returns (ok: bool)
      requires Running() && OnPlan() && todo == DecisionsThen(d, 0, rest)
      modifies this`calls, this`warnings, this`todo, this`decisions
      ensures Went(ok, rest) && (ok ==> decisions == old(decisions) + |d.decisions|)
    {
      for i := 0 to |d.decisions|
        invariant Running() && OnPlan() && todo == DecisionsThen(d, i, rest)
        invariant decisions == old(decisions) + i
      {
        ok := WriteDecision(d.decisions[i], DecisionsThen(d, i + 1, rest));
        if !ok {
          return;
        }
        decisions := decisions + 1;
      }
      ok := true;
    }

    method WriteSlices(d: Data, ghost rest: Plan) returns (ok: bool)
      requires Running() && OnPlan() && todo == SlicesThen(d, 0, rest)
      modifies this`calls, this`warnings, this`todo, this`slices
      ensures Went(ok, rest) && (ok ==> slices == old(slices) + |d.slices|)
    {
      for i := 0 to |d.slices|
        invariant Running() && OnPlan() && todo == SlicesThen(d, i, rest)
        invariant slices == old(slices) + i
      {
        ok := WriteSlice(d.slices[i], SlicesThen(d, i + 1, rest));
        if !ok {
          return;
        }
        slices := slices + 1;
      }
      ok := true;
    }

    /** Creates a slice and restores its status: done ones are claimed first. */
    method WriteSlice(s: Slice, ghost rest: Plan) returns (ok: bool)
      requires Running() && OnPlan() && todo == SliceThen(s, rest)
      modifies this`calls, this`warnings, this`todo
      ensures Went(ok, rest)
    {
      var done := s.status == "done";
      var claim := (s.status == "claimed" || done) && s.assignedTo != "";
      ghost var complete := If(done, CompleteSlice(s.slug), rest);
      ok := Attempt(CreateSlice(s), If(claim, ClaimSlice(s.slug, s.assignedTo), complete));
      if !ok {
        return;
      }
      WarnIf(claim, ClaimSlice(s.slug, s.assignedTo), complete);
      WarnIf(done, CompleteSlice(s.slug), rest);
    }

    method WriteEdges(d: Data, ghost rest: Plan)
      requires Running() && OnPlan() && todo == EdgesThen(d, 0, rest)
      modifies this`calls, this`warnings, this`todo, this`edges, this`findings, this`conversations, this`mappings, this`events
      ensures Went(true, rest)
    {
      for i := 0 to |d.edges|
        invariant Running() && OnPlan() && todo == EdgesThen(d, i, rest)
      {
        Store(AddEdge(d.edges[i]), EdgesThen(d, i + 1, rest));
      }
    }

    /** The groups in some order: the one the map iteration happens to take. */
    method WriteFindings(groups: map<GroupKey, seq<FindingInput>>, order: seq<GroupKey>, d: Data, ghost rest: Plan)
      requires Running() && OnPlan() && todo == GroupsThen(d, order, rest)
      requires forall k :: k in order ==> k in groups && groups[k] == GroupInputs(d.findings, k)
      modifies this`calls, this`warnings, this`todo, this`edges, this`findings, this`conversations, this`mappings, this`events
      ensures Went(true, rest)
    {
      for i := 0 to |order|
        invariant Running() && OnPlan() && todo == GroupsThen(d, order[i..], rest)
      {
        assert order[i] in order && order[i..][1..] == order[i + 1..];
        Store(StoreFindings(order[i], groups[order[i]]), GroupsThen(d, order[i + 1..], rest));
      }
    }

    method WriteConversations(d: Data, ghost rest: Plan)
      requires Running() && OnPlan() && todo == ConversationsThen(d, 0, rest)
      modifies this`calls, this`warnings, this`todo, this`edges, this`findings, this`conversations, this`mappings, this`events
      ensures Went(true, rest)
    {
      for i := 0 to |d.conversations|
        invariant Running() && OnPlan() && todo == ConversationsThen(d, i, rest)
      {
        Store(RecordConversation(d.conversations[i]), ConversationsThen(d, i + 1, rest));
      }
    }

    method WriteMappings(d: Data, ghost rest: Plan)
      requires Running() && OnPlan() && todo == MappingsThen(d, 0, rest)
      modifies this`calls, this`warnings, this`todo, this`edges, this`findings, this`conversations, this`mappings, this`events
      ensures Went(true, rest)
    {
      for i := 0 to |d.mappings|
        invariant Running() && OnPlan() && todo == MappingsThen(d, i, rest)
      {
        Store(CreateSyncMapping(d.mappings[i]), MappingsThen(d, i + 1, rest));
      }
    }

    method WriteEvents(d: Data, ghost rest: Plan)
      requires Running() && OnPlan() && todo == EventsThen(d, 0, rest)
      modifies this`calls, this`warnings, this`todo, this`edges, this`findings, this`conversations, this`mappings, this`events
      ensures Went(true, rest)
    {
      for i := 0 to |d.events|
        invariant Running() && OnPlan() && todo == EventsThen(d, i, rest)
      {
        var c := RecordProgress(d.events[i]);
        if d.events[i].eventType.BlockerEvent? {
          c := RecordBlocker(d.events[i]);
        }
        Store(c, EventsThen(d, i + 1, rest));
      }
    }

    /** Specs, decisions and slices: the creations that must succeed. */
    method WriteNodes(d: Data, ghost rest: Plan) returns (ok: bool)
      requires Running() && OnPlan() && todo == SpecsThen(d, 0, DecisionsThen(d, 0, SlicesThen(d, 0, rest)))
      modifies this`calls, this`warnings, this`todo, this`specs, this`decisions, this`slices
      ensures Went(ok, rest)
      ensures ok ==> specs == old(specs) + |d.specs| && decisions == old(decisions) + |d.decisions|
                     && slices == old(slices) + |d.slices|
    {
      ok := WriteSpecs(d, DecisionsThen(d, 0, SlicesThen(d, 0, rest)));
      if !ok {
        return;
      }
      ok := WriteDecisions(d, SlicesThen(d, 0, rest));
      if !ok {
        return;
      }
      ok := WriteSlices(d, rest);
    }

    /** Conversations, mappings and events. */
    method WriteRecords(d: Data)
      requires Running() && OnPlan() && todo == RecordsThen(d)
      modifies this`calls, this`warnings, this`todo, this`edges, this`findings, this`conversations, this`mappings, this`events
      ensures Went(true, Nil)
    {
      WriteConversations(d, MappingsThen(d, 0, EventsThen(d, 0, Nil)));
      WriteMappings(d, EventsThen(d, 0, Nil));
      WriteEvents(d, Nil);
    }

    /** Everything after the constitution. */
    method WriteEntities(d: Data, groups: map<GroupKey, seq<FindingInput>>, order: seq<GroupKey>) returns (ok: bool)
      requires Running() && OnPlan() && todo == EntityPlan(d, order)
      requires forall k :: k in order ==> k in groups && groups[k] == GroupInputs(d.findings, k)
      modifies this`calls, this`warnings, this`todo, this`specs, this`decisions, this`slices, this`changeLogs,
               this`edges, this`findings, this`conversations, this`mappings, this`events
      ensures Went(ok, Nil)
      ensures ok ==> specs == old(specs) + |d.specs| && decisions == old(decisions) + |d.decisions|
                     && slices == old(slices) + |d.slices| && changeLogs == |d.changeLogs|
    {
      ok := WriteNodes(d, EdgesThen(d, 0, GroupsThen(d, order, RecordsThen(d))));
      if !ok {
        return;
      }
      WriteEdges(d, GroupsThen(d, order, RecordsThen(d)));
      WriteFindings(groups, order, d, RecordsThen(d));
      changeLogs := |d.changeLogs|;
      WriteRecords(d);
    }

    /** The counters of everything whose failure is fatal are those of the document. */
    predicate Complete(doc: Document)
      reads this
    {
      && Layers(doc).Some? && constitution == |Layers(doc).value|
      && specs == |doc.data.specs| && decisions == |doc.data.decisions| && slices == |doc.data.slices|
      && changeLogs == |doc.data.changeLogs|
      && project == if doc.projectSlug != "" then 1 else 0
    }

    method WriteDocument(doc: Document, groups: map<GroupKey, seq<FindingInput>>, order: seq<GroupKey>) returns (r: Result)
      requires Running() && OnPlan() && todo == PlanFor(doc, order)
      requires project == constitution == specs == decisions == slices == 0
      requires forall k :: k in order ==> k in groups && groups[k] == GroupInputs(doc.data.findings, k)
      modifies this
      ensures Went(r != CallFailed, Nil)
      ensures r == SchemaError <==> Layers(doc).None? && r != CallFailed
      ensures r == Imported ==> Complete(doc)
    {
      ghost var later := if Layers(doc).None? then Nil else LayersThen(Layers(doc).value, 0, EntityPlan(doc.data, order));
      var ok := AttemptIf(doc.projectSlug != "", EnsureProject(doc.projectSlug), later);
      if !ok {
        return CallFailed;
      }
      if doc.projectSlug != "" {
        project := 1;
      }
      if Layers(doc).None? {
        return SchemaError;
      }
      ok := WriteBody(Layers(doc).value, doc.data, groups, order);
      r := if ok then Imported else CallFailed;
    }

    /** The constitution layers, then everything else. */
    method WriteBody(layers: seq<string>, d: Data, groups: map<GroupKey, seq<FindingInput>>, order: seq<GroupKey>)
      returns (ok: bool)
      requires Running() && OnPlan() && todo == LayersThen(layers, 0, EntityPlan(d, order))
      requires constitution == specs == decisions == slices == 0
      requires forall k :: k in order ==> k in groups && groups[k] == GroupInputs(d.findings, k)
      modifies this`calls, this`warnings, this`todo, this`constitution, this`specs, this`decisions, this`slices, this`changeLogs,
               this`edges, this`findings, this`conversations, this`mappings, this`events
      ensures Went(ok, Nil)
      ensures ok ==> constitution == |layers| && specs == |d.specs| && decisions == |d.decisions|
                     && slices == |d.slices| && changeLogs == |d.changeLogs|
    {
      ok := WriteLayers(layers, EntityPlan(d, order));
      if !ok {
        return;
      }
      ok := WriteEntities(d, groups, order);
    }
  }

  lemma GroupSnoc(findings: seq<Finding>, f: Finding, k: GroupKey)
    ensures GroupInputs(findings + [f], k) == GroupInputs(findings, k) + if KeyOf(f) == k then [f.input] else []
  {
    assert (findings + [f])[..|findings|] == findings;
  }

  lemma KeysSnoc(findings: seq<Finding>, f: Finding)
    ensures GroupKeys(findings + [f]) == GroupKeys(findings) + {KeyOf(f)}
  {
  }

  /** The loop that groups the findings by spec and pass, keeping their order. */
  method GroupFindings(findings: seq<Finding>) returns (groups: map<GroupKey, seq<FindingInput>>)
    ensures groups.Keys == GroupKeys(findings)
    ensures forall k :: k in groups ==> groups[k] == GroupInputs(findings, k)
  {
    groups := map[];
    for i := 0 to |findings|
      invariant IsGrouping(groups, findings[..i])
    {
      assert findings[..i + 1] == findings[..i] + [findings[i]];
      GroupingSnoc(groups, findings[..i], findings[i]);
      var key := KeyOf(findings[i]);
      groups := groups[key := At(groups, key) + [findings[i].input]];
    }
    assert findings[..|findings|] == findings;
    forall k | k in groups ensures groups[k] == GroupInputs(findings, k) {
      assert At(groups, k) == groups[k];
    }
  }

  ghost predicate IsGrouping(groups: map<GroupKey, seq<FindingInput>>, findings: seq<Finding>) {
    && groups.Keys == GroupKeys(findings)
    && forall k :: At(groups, k) == GroupInputs(findings, k)
  }

  /** A map of lists, nil where a key is missing. */
  function At(groups: map<GroupKey, seq<FindingInput>>, k: GroupKey): seq<FindingInput> {
    if k in groups then groups[k] else []
  }

  lemma GroupingSnoc(groups: map<GroupKey, seq<FindingInput>>, findings: seq<Finding>, f: Finding)
    requires IsGrouping(groups, findings)
    ensures var key := KeyOf(f);
            IsGrouping(groups[key := At(groups, key) + [f.input]], findings + [f])
  {
    var key := KeyOf(f);
    var more := groups[key := At(groups, key) + [f.input]];
    KeysSnoc(findings, f);
    assert more.Keys == groups.Keys + {key};
    forall k ensures At(more, k) == GroupInputs(findings + [f], k) {
      GroupSnoc(findings, f, k);
      assert At(groups, k) == GroupInputs(findings, k);
      assert At(more, k) == if k == key then At(groups, k) + [f.input] else At(groups, k);
    }
  }

  /** Some order of the keys, each once: what ranging over a map gives. */
  method SomeOrder(keys: set<GroupKey>) returns (order: seq<GroupKey>)
    ensures Enumerates(order, keys) && forall k :: k in order ==> k in keys
  {
    order := [];
    var left := keys;
    while left != {}
      invariant left <= keys && Enumerates(order, keys - left)
      invariant forall k :: k in order ==> k in keys
      decreases left
    {
      var k :| k in left;
      var next := order + [k];
      assert next[..|next| - 1] == order && keys - (left - {k}) - {k} == keys - left;
      order, left := next, left - {k};
    }
    assert keys - {} == keys;
  }

  /** Of each kind, the counted items and those in warned calls add up to what the
      document holds, once all of the plan was issued. */
  lemma NothingLost(doc: Document, layers: seq<string>, order: seq<GroupKey>, run: Importer)
    requires Enumerates(order, GroupKeys(doc.data.findings)) && run.plan == FullPlan(doc, layers, order)
    requires run.Running() && run.OnPlan() && run.todo == Nil
    ensures forall k :: run.Stored(k) + Weight(run.warnings, k) == Items(doc.data, k)
  {
    forall k ensures run.Stored(k) + Weight(run.warnings, k) == Items(doc.data, k) {
      PlanWeight(doc, layers, order, k);
      RewindWeight(run.calls, Nil, k);
    }
  }

  /** n was created by a call of this run that did not fail. */
  ghost predicate WorkedFor(fails: nat -> bool, calls: List<Call>, n: Name) {
    match calls
    case Nil => false
    case Cons(c, before) => (n in Creates(c) && !fails(Length(before))) || WorkedFor(fails, before, n)
  }

  /** Whatever a call needs, an earlier call of the run created it and worked. */
  ghost predicate NeedsMet(fails: nat -> bool, calls: List<Call>) {
    match calls
    case Nil => true
    case Cons(c, before) => (forall n :: n in Needs(c) ==> WorkedFor(fails, before, n)) && NeedsMet(fails, before)
  }

  /** While no fatal call failed, what the calls were to create is there: creations
      are fatal. */
  lemma {:induction false} CreatedWorked(fails: nat -> bool, calls: List<Call>, n: Name)
    requires FatalsWorked(fails, calls) && n in Created(calls)
    ensures WorkedFor(fails, calls, n)
  {
    if n !in Creates(calls.head) {
      CreatedWorked(fails, calls.tail, n);
    }
  }

  lemma {:induction false} OrderedRunNeedsMet(fails: nat -> bool, calls: List<Call>, todo: Plan)
    requires Ordered({}, Rewind(calls, todo)) && (calls.Cons? ==> FatalsWorked(fails, calls.tail))
    ensures NeedsMet(fails, calls)
  {
    if calls.Cons? {
      OrderedRunNeedsMet(fails, calls.tail, Cons(calls.head, todo));
      OrderedRest({}, calls.tail, Cons(calls.head, todo));
      forall n | n in Needs(calls.head) ensures WorkedFor(fails, calls.tail, n) {
        CreatedWorked(fails, calls.tail, n);
      }
    }
  }

  /** In every import of a document whose references hold, stopped or not: what a call
      names was created before it by a call of the same run that did not fail. */
  lemma CallsNameCreated(doc: Document, order: seq<GroupKey>, run: Importer)
    requires RefsHold(doc.data) && forall k :: k in order ==> k in GroupKeys(doc.data.findings)
    requires run.OnPlan() && run.plan == PlanFor(doc, order)
    requires run.Running() || Halted(run.fails, run.calls)
    ensures NeedsMet(run.fails, run.calls)
  {
    if Layers(doc).Some? {
      FullPlanOrdered(doc, Layers(doc).value, order);
    }
    OrderedRunNeedsMet(run.fails, run.calls, run.todo);
  }

  /** Only calls that the import can do without are among the failed ones. */
  lemma {:induction false} FailedAreMinor(fails: nat -> bool, calls: List<Call>)
    requires FatalsWorked(fails, calls)
    ensures forall c :: c in Elements(FailedCalls(fails, calls)) ==> !MustWork(c)
  {
    if calls.Cons? {
      FailedAreMinor(fails, calls.tail);
      FatalMeansMustWork(calls.head);
    }
  }

  /** A completed import made exactly the calls that its document asks for. */
  lemma RunIsProper(doc: Document, order: seq<GroupKey>, calls: List<Call>) returns (parts: Sections)
    requires Layers(doc).Some? && Rewind(calls, Nil) == FullPlan(doc, Layers(doc).value, order)
    ensures Proper(doc, order, parts) && Rewind(calls, Nil) == parts.All()
    ensures LayersOf(Rewind(calls, Nil)) == DocumentLayers(doc)
  {
    parts := PlanIsProper(doc, order);
    ProperLayers(doc, order, parts);
  }

  /** Where the schema is mixed, only the project call can be made. */
  lemma MixedMakesOneCall(doc: Document, calls: List<Call>, todo: Plan)
    requires Rewind(calls, todo) == If(doc.projectSlug != "", EnsureProject(doc.projectSlug), Nil) && calls.Cons?
    ensures calls == Cons(EnsureProject(doc.projectSlug), Nil)
  {
    if calls.tail.Cons? {
      RewindLength(calls.tail.tail, Cons(calls.tail.head, Cons(calls.head, todo)));
    }
  }

  lemma {:induction false} RewindLength(calls: List<Call>, todo: Plan)
    ensures Length(Rewind(calls, todo)) == Length(calls) + Length(todo)
  {
    if calls.Cons? {
      RewindLength(calls.tail, Cons(calls.head, todo));
    }
  }

  /** writeEntities. The calls issued are an initial part of the plan: all of it on
      success, and up to the first failed fatal call otherwise. On success every
      failure is a warning and nothing is lost. With intact references every call finds
      what it names among what earlier calls of the run created. A completed run made
      exactly the calls that the document asks for, block by block. A document that
      mixes the two schema versions is refused after the project call only. */
  method Import(doc: Document, fails: nat -> bool) returns (r: Result, run: Importer, ghost order: seq<GroupKey>)
    ensures Enumerates(order, GroupKeys(doc.data.findings))
    ensures run.fails == fails && run.OnPlan() && run.plan == PlanFor(doc, order)
    ensures r == SchemaError <==> Layers(doc).None? && r != CallFailed
    ensures r == CallFailed ==> Halted(fails, run.calls)
    ensures r != CallFailed ==> run.Running() && run.todo == Nil
    ensures r == Imported ==> run.Complete(doc)
    ensures r == Imported ==> forall k :: run.Stored(k) + Weight(run.warnings, k) == Items(doc.data, k)
    ensures RefsHold(doc.data) ==> NeedsMet(fails, run.calls)
    ensures !Mixed(doc) ==> exists parts :: Proper(doc, order, parts) && Rewind(run.calls, run.todo) == parts.All()
    ensures r == Imported ==> LayersOf(Rewind(run.calls, Nil)) == DocumentLayers(doc) && run.constitution == |DocumentLayers(doc)|
    ensures r == SchemaError <==> Mixed(doc) && r != CallFailed
    ensures r == CallFailed ==> MustWork(run.calls.head)
    ensures r == CallFailed && Mixed(doc) ==> run.calls == Cons(EnsureProject(doc.projectSlug), Nil)
    ensures r == Imported ==> forall c :: c in Elements(run.warnings) ==> !MustWork(c)
  {
    var groups := GroupFindings(doc.data.findings);
    var visit := SomeOrder(groups.Keys);
    order := visit;
    run := new Importer(fails, PlanFor(doc, order));
    r := run.WriteDocument(doc, groups, visit);
    if r == Imported {
      NothingLost(doc, Layers(doc).value, order, run);
    }
    if RefsHold(doc.data) {
      CallsNameCreated(doc, order, run);
    }
    LayersExact(doc);
    if !Mixed(doc) {
      var parts := PlanIsProper(doc, order);
    }
    if r == Imported {
      var parts := RunIsProper(doc, order, run.calls);
      FailedAreMinor(fails, run.calls);
    } else if r == CallFailed {
      FatalMeansMustWork(run.calls.head);
      if Mixed(doc) {
        MixedMakesOneCall(doc, run.calls, run.todo);
      }
    }
  }

  /** The plan of a document; only the project call where the schema is mixed. */
  ghost function PlanFor(doc: Document, order: seq<GroupKey>): Plan {
    if Layers(doc).Some? then FullPlan(doc, Layers(doc).value, order)
    else If(doc.projectSlug != "", EnsureProject(doc.projectSlug), Nil)
  }
}
