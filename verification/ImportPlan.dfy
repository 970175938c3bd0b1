/** The backend calls of an import, in order (Engine.writeEntities in
    internal/export/engine.go), and what their order guarantees. */
module ImportPlan {
  import opened Wrappers
  import opened Document

  datatype Output = Spark | Shape | Specify | Decompose

  datatype Call =
    | EnsureProject(slug: string)
    | UpdateConstitution(layer: string)
    | CreateSpec(spec: Spec, provenance: string, withOutputs: bool)
    | StoreOutput(slug: string, output: Output)
    | TransitionStage(slug: string, from: string, to: string)
    | UpdateNotes(slug: string, notes: string)
    | CreateDecision(decision: Decision)
    | UpdateDecision(slug: string, status: string, supersededBy: string)
    | CreateSlice(slice: Slice)
    | ClaimSlice(slug: string, assignee: string)
    | CompleteSlice(slug: string)
    | AddEdge(edge: Edge)
    | StoreFindings(key: GroupKey, inputs: seq<FindingInput>)
    | RecordConversation(conversation: Conversation)
    | CreateSyncMapping(mapping: SyncMapping)
    | RecordBlocker(event: Event)
    | RecordProgress(event: Event)

  const AUTHORED := "authored"

  function StageOrder(stage: string): nat {
    if stage == "shape" then 1
    else if stage == "specify" then 2
    else if stage == "decompose" then 3
    else if stage == "approved" then 4
    else if stage == "in_progress" then 5
    else if stage == "review" then 6
    else if stage == "done" then 7
    else if stage == "superseded" then 8
    else if stage == "abandoned" then 9
    else 0
  }

  predicate Terminal(stage: string) {
    stage == "superseded" || stage == "abandoned"
  }

  const CHAIN: seq<string> := ["decompose", "approved", "in_progress", "review", "done"]

  /** A failure of these ends the import; of the others it becomes a warning. */
  predicate Fatal(c: Call) {
    match c
    case EnsureProject(_) => true
    case UpdateConstitution(_) => true
    case CreateSpec(_, _, _) => true
    case StoreOutput(_, _) => true
    case TransitionStage(_, _, to) => !Terminal(to)
    case CreateDecision(_) => true
    case CreateSlice(_) => true
    case _ => false
  }

  // ---------------------------------------------------------------- the plan

  /** The layers to write, or None where the document mixes the two schema versions. */
  function Layers(doc: Document): Option<seq<string>> {
    if doc.schemaVersion == 1 then
      if doc.data.constitutions.Some? then None
      else Some(if doc.data.constitution.Some? then [doc.data.constitution.value] else [])
    else if doc.schemaVersion == 2 then
      if doc.data.constitution.Some? then None
      else Some(if doc.data.constitutions.Some? then doc.data.constitutions.value else [])
    else None
  }

  // Each function below puts some calls in front of the calls that follow.
  type Plan = List<Call>

  function If(wanted: bool, c: Call, rest: Plan): Plan {
    if wanted then Cons(c, rest) else rest
  }

  function LayersThen(layers: seq<string>, i: nat, rest: Plan): Plan
    decreases |layers| - i
  {
    if i >= |layers| then rest else Cons(UpdateConstitution(layers[i]), LayersThen(layers, i + 1, rest))
  }

  function OutputsThen(s: Spec, rest: Plan): Plan {
    If(s.hasSpark, StoreOutput(s.slug, Spark),
    If(s.hasShape, StoreOutput(s.slug, Shape),
    If(s.hasSpecify, StoreOutput(s.slug, Specify),
    If(s.hasDecompose, StoreOutput(s.slug, Decompose), rest))))
  }

  /** The chain steps from position i on whose stage is not past the target. */
  function ChainThen(s: Spec, i: nat, rest: Plan): Plan
    decreases |CHAIN| - i
  {
    if i + 1 >= |CHAIN| || StageOrder(CHAIN[i + 1]) > StageOrder(s.stage) then rest
    else Cons(TransitionStage(s.slug, CHAIN[i], CHAIN[i + 1]), ChainThen(s, i + 1, rest))
  }

  function StageThen(s: Spec, rest: Plan): Plan {
    if StageOrder(s.stage) > StageOrder("decompose")
    then ChainThen(s, 0, If(Terminal(s.stage), TransitionStage(s.slug, "done", s.stage), rest))
    else rest
  }

  function Provenance(s: Spec): string {
    if s.provenance == "" then AUTHORED else s.provenance
  }

  function SpecThen(s: Spec, rest: Plan): Plan {
    Cons(CreateSpec(s, Provenance(s), Provenance(s) != AUTHORED),
         OutputsThen(s, StageThen(s, If(s.notes != "", UpdateNotes(s.slug, s.notes), rest))))
  }

  function SpecsThen(d: Data, i: nat, rest: Plan): Plan
    decreases |d.specs| - i
  {
    if i >= |d.specs| then rest else SpecThen(d.specs[i], SpecsThen(d, i + 1, rest))
  }

  function DecisionThen(x: Decision, rest: Plan): Plan {
    Cons(CreateDecision(x),
         If(x.status != "" && x.status != "proposed", UpdateDecision(x.slug, x.status, x.supersededBy), rest))
  }

  function DecisionsThen(d: Data, i: nat, rest: Plan): Plan
    decreases |d.decisions| - i
  {
    if i >= |d.decisions| then rest else DecisionThen(d.decisions[i], DecisionsThen(d, i + 1, rest))
  }

  function SliceThen(s: Slice, rest: Plan): Plan {
    Cons(CreateSlice(s),
         If((s.status == "claimed" || s.status == "done") && s.assignedTo != "", ClaimSlice(s.slug, s.assignedTo),
         If(s.status == "done", CompleteSlice(s.slug), rest)))
  }

  function SlicesThen(d: Data, i: nat, rest: Plan): Plan
    decreases |d.slices| - i
  {
    if i >= |d.slices| then rest else SliceThen(d.slices[i], SlicesThen(d, i + 1, rest))
  }

  function EdgesThen(d: Data, i: nat, rest: Plan): Plan
    decreases |d.edges| - i
  {
    if i >= |d.edges| then rest else Cons(AddEdge(d.edges[i]), EdgesThen(d, i + 1, rest))
  }

  function GroupsThen(d: Data, order: seq<GroupKey>, rest: Plan): Plan {
    if order == [] then rest
    else Cons(StoreFindings(order[0], GroupInputs(d.findings, order[0])), GroupsThen(d, order[1..], rest))
  }

  function ConversationsThen(d: Data, i: nat, rest: Plan): Plan
    decreases |d.conversations| - i
  {
    if i >= |d.conversations| then rest else Cons(RecordConversation(d.conversations[i]), ConversationsThen(d, i + 1, rest))
  }

  function MappingsThen(d: Data, i: nat, rest: Plan): Plan
    decreases |d.mappings| - i
  {
    if i >= |d.mappings| then rest else Cons(CreateSyncMapping(d.mappings[i]), MappingsThen(d, i + 1, rest))
  }

  function EventCall(e: Event): Call {
    if e.eventType.BlockerEvent? then RecordBlocker(e) else RecordProgress(e)
  }

  function EventsThen(d: Data, i: nat, rest: Plan): Plan
    decreases |d.events| - i
  {
    if i >= |d.events| then rest else Cons(EventCall(d.events[i]), EventsThen(d, i + 1, rest))
  }

  function RecordsThen(d: Data): Plan {
    ConversationsThen(d, 0, MappingsThen(d, 0, EventsThen(d, 0, Nil)))
  }

  /** Everything after the constitution, with the groups of findings in some order. */
  function EntityPlan(d: Data, order: seq<GroupKey>): Plan {
    SpecsThen(d, 0, DecisionsThen(d, 0, SlicesThen(d, 0, EdgesThen(d, 0, GroupsThen(d, order, RecordsThen(d))))))
  }

  /** All calls of an import. */
  function FullPlan(doc: Document, layers: seq<string>, order: seq<GroupKey>): Plan {
    If(doc.projectSlug != "", EnsureProject(doc.projectSlug), LayersThen(layers, 0, EntityPlan(doc.data, order)))
  }

  // ---------------------------------------------------------------- order of the plan

  /** What a call creates and what it takes for granted. */
  datatype Name = SpecName(slug: string) | NodeName(slug: string) | DecisionName(slug: string) | SliceName(slug: string)

  function Creates(c: Call): set<Name> {
    match c
    case CreateSpec(s, _, _) => {SpecName(s.slug), NodeName(s.slug)}
    case CreateDecision(d) => {DecisionName(d.slug), NodeName(d.slug)}
    case CreateSlice(s) => {SliceName(s.slug)}
    case _ => {}
  }

  function Needs(c: Call): set<Name> {
    match c
    case StoreOutput(slug, _) => {SpecName(slug)}
    case TransitionStage(slug, _, _) => {SpecName(slug)}
    case UpdateNotes(slug, _) => {SpecName(slug)}
    case UpdateDecision(slug, _, _) => {DecisionName(slug)}
    case CreateSlice(s) => {SpecName(s.parentSlug)}
    case ClaimSlice(slug, _) => {SliceName(slug)}
    case CompleteSlice(slug) => {SliceName(slug)}
    case AddEdge(e) => {NodeName(e.fromSlug), NodeName(e.toSlug)}
    case StoreFindings(key, _) => {SpecName(key.0)}
    case RecordConversation(c) => {SpecName(c.specSlug)}
    case CreateSyncMapping(m) => {SpecName(m.specSlug)}
    case RecordBlocker(e) => {SpecName(e.specSlug)}
    case RecordProgress(e) => {SpecName(e.specSlug)}
    case _ => {}
  }

  /** Every call finds what it needs among have and what the calls before it created. */
  ghost predicate Ordered(have: set<Name>, plan: Plan)
    decreases plan
  {
    match plan
    case Nil => true
    case Cons(c, rest) => Needs(c) <= have && Ordered(have + Creates(c), rest)
  }

  lemma {:induction false} OrderedMore(have: set<Name>, more: set<Name>, plan: Plan)
    requires Ordered(have, plan) && have <= more
    ensures Ordered(more, plan)
    decreases plan
  {
    if plan.Cons? {
      OrderedMore(have + Creates(plan.head), more + Creates(plan.head), plan.tail);
    }
  }

  /** A call that needs only what is there and that what follows does not rely on. */
  lemma OrderedCons(have: set<Name>, c: Call, rest: Plan)
    requires Needs(c) <= have && Ordered(have, rest)
    ensures Ordered(have, Cons(c, rest))
  {
    OrderedMore(have, have + Creates(c), rest);
  }

  lemma OrderedIf(have: set<Name>, wanted: bool, c: Call, rest: Plan)
    requires Needs(c) <= have && Ordered(have, rest)
    ensures Ordered(have, If(wanted, c, rest))
  {
    if wanted {
      OrderedCons(have, c, rest);
    }
  }

  lemma {:induction false} ChainOrdered(have: set<Name>, s: Spec, i: nat, rest: Plan)
    requires SpecName(s.slug) in have && Ordered(have, rest)
    ensures Ordered(have, ChainThen(s, i, rest))
    decreases |CHAIN| - i
  {
    if !(i + 1 >= |CHAIN| || StageOrder(CHAIN[i + 1]) > StageOrder(s.stage)) {
      ChainOrdered(have, s, i + 1, rest);
      OrderedCons(have, TransitionStage(s.slug, CHAIN[i], CHAIN[i + 1]), ChainThen(s, i + 1, rest));
    }
  }

  lemma OutputsOrdered(have: set<Name>, s: Spec, rest: Plan)
    requires SpecName(s.slug) in have && Ordered(have, rest)
    ensures Ordered(have, OutputsThen(s, rest))
  {
    var p := If(s.hasDecompose, StoreOutput(s.slug, Decompose), rest);
    OrderedIf(have, s.hasDecompose, StoreOutput(s.slug, Decompose), rest);
    OrderedIf(have, s.hasSpecify, StoreOutput(s.slug, Specify), p);
    p := If(s.hasSpecify, StoreOutput(s.slug, Specify), p);
    OrderedIf(have, s.hasShape, StoreOutput(s.slug, Shape), p);
    p := If(s.hasShape, StoreOutput(s.slug, Shape), p);
    OrderedIf(have, s.hasSpark, StoreOutput(s.slug, Spark), p);
  }

  function SpecNames(s: Spec): set<Name> {
    {SpecName(s.slug), NodeName(s.slug)}
  }

  lemma SpecOrdered(have: set<Name>, s: Spec, rest: Plan)
    requires Ordered(have + SpecNames(s), rest)
    ensures Ordered(have, SpecThen(s, rest))
  {
    var more := have + SpecNames(s);
    var notes := If(s.notes != "", UpdateNotes(s.slug, s.notes), rest);
    OrderedIf(more, s.notes != "", UpdateNotes(s.slug, s.notes), rest);
    OrderedIf(more, Terminal(s.stage), TransitionStage(s.slug, "done", s.stage), notes);
    ChainOrdered(more, s, 0, If(Terminal(s.stage), TransitionStage(s.slug, "done", s.stage), notes));
    OutputsOrdered(more, s, StageThen(s, notes));
  }

  function NamesOfSpecs(d: Data, i: nat): set<Name>
    decreases |d.specs| - i
  {
    if i >= |d.specs| then {} else SpecNames(d.specs[i]) + NamesOfSpecs(d, i + 1)
  }

  lemma {:induction false} SpecsOrdered(d: Data, i: nat, have: set<Name>, rest: Plan)
    requires Ordered(have + NamesOfSpecs(d, i), rest)
    ensures Ordered(have, SpecsThen(d, i, rest))
    decreases |d.specs| - i
  {
    if i < |d.specs| {
      var more := have + SpecNames(d.specs[i]);
      assert more + NamesOfSpecs(d, i + 1) == have + NamesOfSpecs(d, i);
      SpecsOrdered(d, i + 1, more, rest);
      SpecOrdered(have, d.specs[i], SpecsThen(d, i + 1, rest));
    } else {
      assert have + {} == have;
    }
  }

  function DecisionNames(x: Decision): set<Name> {
    {DecisionName(x.slug), NodeName(x.slug)}
  }

  function NamesOfDecisions(d: Data, i: nat): set<Name>
    decreases |d.decisions| - i
  {
    if i >= |d.decisions| then {} else DecisionNames(d.decisions[i]) + NamesOfDecisions(d, i + 1)
  }

  lemma {:induction false} DecisionsOrdered(d: Data, i: nat, have: set<Name>, rest: Plan)
    requires Ordered(have + NamesOfDecisions(d, i), rest)
    ensures Ordered(have, DecisionsThen(d, i, rest))
    decreases |d.decisions| - i
  {
    if i < |d.decisions| {
      var x := d.decisions[i];
      var more := have + DecisionNames(x);
      assert more + NamesOfDecisions(d, i + 1) == have + NamesOfDecisions(d, i);
      DecisionsOrdered(d, i + 1, more, rest);
      OrderedIf(more, x.status != "" && x.status != "proposed", UpdateDecision(x.slug, x.status, x.supersededBy),
                DecisionsThen(d, i + 1, rest));
    } else {
      assert have + {} == have;
    }
  }

  /** The names that the specs and decisions of a document stand for. */
  ghost predicate Nodes(d: Data, have: set<Name>) {
    && (forall slug :: slug in SpecSlugs(d) ==> SpecName(slug) in have)
    && (forall slug :: slug in NodeSlugs(d) ==> NodeName(slug) in have)
  }

  lemma {:induction false} SpecNamed(d: Data, i: nat, j: nat)
    requires i <= j < |d.specs|
    ensures SpecNames(d.specs[j]) <= NamesOfSpecs(d, i)
    decreases j - i
  {
    if i < j {
      SpecNamed(d, i + 1, j);
    }
  }

  lemma {:induction false} DecisionNamed(d: Data, i: nat, j: nat)
    requires i <= j < |d.decisions|
    ensures DecisionNames(d.decisions[j]) <= NamesOfDecisions(d, i)
    decreases j - i
  {
    if i < j {
      DecisionNamed(d, i + 1, j);
    }
  }

  lemma NodesNamed(d: Data)
    ensures Nodes(d, NamesOfSpecs(d, 0) + NamesOfDecisions(d, 0))
  {
    forall j | 0 <= j < |d.specs| ensures SpecNames(d.specs[j]) <= NamesOfSpecs(d, 0) {
      SpecNamed(d, 0, j);
    }
    forall j | 0 <= j < |d.decisions| ensures NodeName(d.decisions[j].slug) in NamesOfDecisions(d, 0) {
      DecisionNamed(d, 0, j);
    }
  }

  lemma {:induction false} SlicesOrdered(d: Data, i: nat, have: set<Name>, rest: Plan)
    requires RefsHold(d) && Nodes(d, have) && Ordered(have, rest)
    ensures Ordered(have, SlicesThen(d, i, rest))
    decreases |d.slices| - i
  {
    if i < |d.slices| {
      var s, after := d.slices[i], SlicesThen(d, i + 1, rest);
      assert !Broken(d, Ref(SliceParent, i));
      SlicesOrdered(d, i + 1, have, rest);
      var more := have + {SliceName(s.slug)};
      OrderedMore(have, more, after);
      var done := If(s.status == "done", CompleteSlice(s.slug), after);
      OrderedIf(more, s.status == "done", CompleteSlice(s.slug), after);
      OrderedIf(more, (s.status == "claimed" || s.status == "done") && s.assignedTo != "", ClaimSlice(s.slug, s.assignedTo), done);
    }
  }

  lemma {:induction false} EdgesOrdered(d: Data, i: nat, have: set<Name>, rest: Plan)
    requires RefsHold(d) && Nodes(d, have) && Ordered(have, rest)
    ensures Ordered(have, EdgesThen(d, i, rest))
    decreases |d.edges| - i
  {
    if i < |d.edges| {
      assert !Broken(d, Ref(EdgeFrom, i)) && !Broken(d, Ref(EdgeTo, i));
      EdgesOrdered(d, i + 1, have, rest);
      OrderedCons(have, AddEdge(d.edges[i]), EdgesThen(d, i + 1, rest));
    }
  }

  lemma {:induction false} GroupsOrdered(d: Data, order: seq<GroupKey>, have: set<Name>, rest: Plan)
    requires RefsHold(d) && Nodes(d, have) && Ordered(have, rest)
    requires forall k :: k in order ==> k in GroupKeys(d.findings)
    ensures Ordered(have, GroupsThen(d, order, rest))
  {
    if order != [] {
      assert order[0] in order;
      var f :| f in d.findings && KeyOf(f) == order[0];
      var k :| 0 <= k < |d.findings| && d.findings[k] == f;
      assert !Broken(d, Ref(FindingSpec, k));
      GroupsOrdered(d, order[1..], have, rest);
      OrderedCons(have, StoreFindings(order[0], GroupInputs(d.findings, order[0])), GroupsThen(d, order[1..], rest));
    }
  }

  lemma {:induction false} ConversationsOrdered(d: Data, i: nat, have: set<Name>, rest: Plan)
    requires RefsHold(d) && Nodes(d, have) && Ordered(have, rest)
    ensures Ordered(have, ConversationsThen(d, i, rest))
    decreases |d.conversations| - i
  {
    if i < |d.conversations| {
      assert !Broken(d, Ref(ConversationSpec, i));
      ConversationsOrdered(d, i + 1, have, rest);
      OrderedCons(have, RecordConversation(d.conversations[i]), ConversationsThen(d, i + 1, rest));
    }
  }

  lemma {:induction false} MappingsOrdered(d: Data, i: nat, have: set<Name>, rest: Plan)
    requires RefsHold(d) && Nodes(d, have) && Ordered(have, rest)
    ensures Ordered(have, MappingsThen(d, i, rest))
    decreases |d.mappings| - i
  {
    if i < |d.mappings| {
      assert !Broken(d, Ref(MappingSpec, i));
      MappingsOrdered(d, i + 1, have, rest);
      OrderedCons(have, CreateSyncMapping(d.mappings[i]), MappingsThen(d, i + 1, rest));
    }
  }

  lemma {:induction false} EventsOrdered(d: Data, i: nat, have: set<Name>, rest: Plan)
    requires RefsHold(d) && Nodes(d, have) && Ordered(have, rest)
    ensures Ordered(have, EventsThen(d, i, rest))
    decreases |d.events| - i
  {
    if i < |d.events| {
      assert !Broken(d, Ref(EventSpec, i));
      EventsOrdered(d, i + 1, have, rest);
      OrderedCons(have, EventCall(d.events[i]), EventsThen(d, i + 1, rest));
    }
  }

  /** For every document whose references hold, each call of the import names only
      what an earlier call of the same import created. */
  lemma PlanOrdered(d: Data, order: seq<GroupKey>)
    requires RefsHold(d) && forall k :: k in order ==> k in GroupKeys(d.findings)
    ensures Ordered({}, EntityPlan(d, order))
  {
    NodesNamed(d);
    var specs := {} + NamesOfSpecs(d, 0);
    var have := specs + NamesOfDecisions(d, 0);
    assert have == NamesOfSpecs(d, 0) + NamesOfDecisions(d, 0);
    EventsOrdered(d, 0, have, Nil);
    MappingsOrdered(d, 0, have, EventsThen(d, 0, Nil));
    ConversationsOrdered(d, 0, have, MappingsThen(d, 0, EventsThen(d, 0, Nil)));
    var p := RecordsThen(d);
    GroupsOrdered(d, order, have, p);
    p := GroupsThen(d, order, p);
    EdgesOrdered(d, 0, have, p);
    p := EdgesThen(d, 0, p);
    SlicesOrdered(d, 0, have, p);
    p := SlicesThen(d, 0, p);
    DecisionsOrdered(d, 0, specs, p);
    SpecsOrdered(d, 0, {}, DecisionsThen(d, 0, p));
  }

  // ---------------------------------------------------------------- parts of a plan

  /** done, latest first, put back in front of todo. */
  function Rewind(done: List<Call>, todo: Plan): Plan {
    match done
    case Nil => todo
    case Cons(c, before) => Rewind(before, Cons(c, todo))
  }

  function Created(done: List<Call>): set<Name> {
    match done
    case Nil => {}
    case Cons(c, before) => Creates(c) + Created(before)
  }

  lemma {:induction false} OrderedRest(have: set<Name>, done: List<Call>, todo: Plan)
    requires Ordered(have, Rewind(done, todo))
    ensures Ordered(have + Created(done), todo)
  {
    if done.Nil? {
      assert have + {} == have;
    } else {
      OrderedRest(have, done.tail, Cons(done.head, todo));
      assert have + Created(done) == have + Created(done.tail) + Creates(done.head);
    }
  }

  lemma {:induction false} LayersOrdered(layers: seq<string>, i: nat, rest: Plan)
    requires Ordered({}, rest)
    ensures Ordered({}, LayersThen(layers, i, rest))
    decreases |layers| - i
  {
    if i < |layers| {
      LayersOrdered(layers, i + 1, rest);
      OrderedCons({}, UpdateConstitution(layers[i]), LayersThen(layers, i + 1, rest));
    }
  }

  /** The whole plan of a document whose references hold is ordered. */
  lemma FullPlanOrdered(doc: Document, layers: seq<string>, order: seq<GroupKey>)
    requires RefsHold(doc.data) && forall k :: k in order ==> k in GroupKeys(doc.data.findings)
    ensures Ordered({}, FullPlan(doc, layers, order))
  {
    PlanOrdered(doc.data, order);
    LayersOrdered(layers, 0, EntityPlan(doc.data, order));
    OrderedIf({}, doc.projectSlug != "", EnsureProject(doc.projectSlug), LayersThen(layers, 0, EntityPlan(doc.data, order)));
  }

  // ---------------------------------------------------------------- content of the plan

  /** Walks the stage transitions of a plan; None when one does not start where the
      spec stands. */
  function FinalStage(plan: Plan, stage: string): Option<string> {
    match plan
    case Nil => Some(stage)
    case Cons(TransitionStage(_, from, to), rest) => if from == stage then FinalStage(rest, to) else None
    case Cons(_, rest) => FinalStage(rest, stage)
  }

  lemma {:induction false} ChainEnds(s: Spec, i: nat, rest: Plan)
    requires i < |CHAIN| && StageOrder(CHAIN[i]) <= StageOrder(s.stage)
    ensures FinalStage(ChainThen(s, i, rest), CHAIN[i]) ==
            FinalStage(rest, if StageOrder(s.stage) > 7 then "done" else CHAIN[StageOrder(s.stage) - 3])
    decreases |CHAIN| - i
  {
    if i + 1 < |CHAIN| && StageOrder(CHAIN[i + 1]) <= StageOrder(s.stage) {
      ChainEnds(s, i + 1, rest);
    }
  }

  /** The transitions take a decomposed spec to the stage it was exported in, each
      from where the previous one led; earlier stages need none. */
  lemma StageRestored(s: Spec)
    ensures FinalStage(StageThen(s, Nil), "decompose") ==
            Some(if s.stage in {"approved", "in_progress", "review", "done", "superseded", "abandoned"} then s.stage else "decompose")
  {
    if StageOrder(s.stage) > StageOrder("decompose") {
      ChainEnds(s, 0, If(Terminal(s.stage), TransitionStage(s.slug, "done", s.stage), Nil));
    }
  }

  // ---------------------------------------------------------------- the calls of one entity

  /** The place of a call among those of its entity: outputs in funnel order before
      the later stages, notes last; a slice is claimed before it is completed. */
  function Place(c: Call): nat {
    match c
    case StoreOutput(_, Spark) => 1
    case StoreOutput(_, Shape) => 2
    case StoreOutput(_, Specify) => 3
    case StoreOutput(_, Decompose) => 4
    case TransitionStage(_, _, to) => 5 + StageOrder(to)
    case UpdateNotes(_, _) => 15
    case UpdateDecision(_, _, _) => 1
    case ClaimSlice(_, _) => 1
    case CompleteSlice(_) => 2
    case _ => 0
  }

  /** Strictly rising places, from low on: an order in which no call repeats. */
  predicate Rising(low: nat, plan: Plan)
    decreases plan
  {
    match plan
    case Nil => true
    case Cons(c, rest) => low <= Place(c) && Rising(Place(c) + 1, rest)
  }

  /** The chain step from position k is on the way to the stage of s. */
  predicate ChainStep(s: Spec, k: nat, c: Call) {
    && k + 1 < |CHAIN| && StageOrder(CHAIN[k + 1]) <= StageOrder(s.stage)
    && c == TransitionStage(s.slug, CHAIN[k], CHAIN[k + 1])
  }

  predicate HasOutput(s: Spec, output: Output) {
    match output
    case Spark => s.hasSpark
    case Shape => s.hasShape
    case Specify => s.hasSpecify
    case Decompose => s.hasDecompose
  }

  /** The calls that bring back a spec as it was exported. */
  predicate SpecCall(s: Spec, c: Call) {
    match c
    case CreateSpec(t, provenance, withOutputs) =>
      && t == s && provenance == (if s.provenance == "" then AUTHORED else s.provenance)
      && (withOutputs <==> s.provenance != "" && s.provenance != AUTHORED)
    case StoreOutput(slug, output) => slug == s.slug && HasOutput(s, output)
    case TransitionStage(slug, from, to) =>
      ChainCall(s, 0, c) || (Terminal(s.stage) && c == TransitionStage(s.slug, "done", s.stage))
    case UpdateNotes(slug, notes) => slug == s.slug && notes == s.notes && notes != ""
    case _ => false
  }

  predicate DecisionCall(x: Decision, c: Call) {
    match c
    case CreateDecision(y) => x == y
    case UpdateDecision(slug, status, supersededBy) =>
      && slug == x.slug && status == x.status && supersededBy == x.supersededBy
      && status !in {"", "proposed"}
    case _ => false
  }

  predicate SliceCall(s: Slice, c: Call) {
    match c
    case CreateSlice(t) => s == t
    case ClaimSlice(slug, assignee) =>
      slug == s.slug && assignee == s.assignedTo && assignee != "" && s.status in {"claimed", "done"}
    case CompleteSlice(slug) => slug == s.slug && s.status == "done"
    case _ => false
  }

  lemma {:induction false} RisingLower(low: nat, high: nat, plan: Plan)
    requires low <= high && Rising(high, plan)
    ensures Rising(low, plan)
  {
  }

  /** The next step of the chain, if the spec goes that far. */
  lemma ChainStepPlace(s: Spec, i: nat)
    requires i + 1 < |CHAIN|
    ensures Place(TransitionStage(s.slug, CHAIN[i], CHAIN[i + 1])) == 9 + i
  {
  }

  lemma {:induction false} ChainRises(s: Spec, i: nat, rest: Plan)
    requires i < |CHAIN| && Rising(13, rest)
    ensures Rising(9 + i, ChainThen(s, i, rest))
    decreases |CHAIN| - i
  {
    if i + 1 >= |CHAIN| || StageOrder(CHAIN[i + 1]) > StageOrder(s.stage) {
      RisingLower(9 + i, 13, rest);
    } else {
      ChainRises(s, i + 1, rest);
      ChainStepPlace(s, i);
    }
  }

  /** c is a chain step of s at position i or later. */
  predicate ChainCall(s: Spec, i: nat, c: Call) {
    exists k :: i <= k < |CHAIN| && ChainStep(s, k, c)
  }

  lemma ChainCallNext(s: Spec, i: nat, c: Call)
    ensures ChainCall(s, i, c) <==> ChainStep(s, i, c) || ChainCall(s, i + 1, c)
  {
    if ChainCall(s, i, c) {
      var k :| i <= k < |CHAIN| && ChainStep(s, k, c);
      assert k == i || i + 1 <= k;
    }
  }

  /** Once a stage lies beyond that of the spec, so do all later ones. */
  lemma ChainEndsHere(s: Spec, i: nat, c: Call)
    requires i + 1 >= |CHAIN| || StageOrder(CHAIN[i + 1]) > StageOrder(s.stage)
    ensures !ChainCall(s, i, c)
  {
  }

  lemma {:induction false} ChainReplays(s: Spec, i: nat, rest: Plan, c: Call)
    ensures c in Elements(ChainThen(s, i, rest)) <==> c in Elements(rest) || ChainCall(s, i, c)
    decreases |CHAIN| - i
  {
    if i + 1 >= |CHAIN| || StageOrder(CHAIN[i + 1]) > StageOrder(s.stage) {
      ChainEndsHere(s, i, c);
    } else {
      ChainReplays(s, i + 1, rest, c);
      ChainCallNext(s, i, c);
    }
  }

  lemma IfReplays(low: nat, wanted: bool, c: Call, rest: Plan, d: Call)
    requires low <= Place(c) && Rising(Place(c) + 1, rest)
    ensures Rising(low, If(wanted, c, rest))
    ensures d in Elements(If(wanted, c, rest)) <==> d in Elements(rest) || (wanted && d == c)
  {
    RisingLower(low, Place(c) + 1, rest);
  }

  lemma OutputsReplay(s: Spec, rest: Plan, c: Call)
    requires Rising(5, rest)
    ensures Rising(1, OutputsThen(s, rest))
    ensures c in Elements(OutputsThen(s, rest)) <==> c in Elements(rest) || (c.StoreOutput? && SpecCall(s, c))
  {
    var p4 := If(s.hasDecompose, StoreOutput(s.slug, Decompose), rest);
    var p3 := If(s.hasSpecify, StoreOutput(s.slug, Specify), p4);
    var p2 := If(s.hasShape, StoreOutput(s.slug, Shape), p3);
    IfReplays(4, s.hasDecompose, StoreOutput(s.slug, Decompose), rest, c);
    IfReplays(3, s.hasSpecify, StoreOutput(s.slug, Specify), p4, c);
    IfReplays(2, s.hasShape, StoreOutput(s.slug, Shape), p3, c);
    IfReplays(1, s.hasSpark, StoreOutput(s.slug, Spark), p2, c);
  }

  /** Of a spec the plan holds exactly the calls that bring it back, each once: its
      outputs in funnel order, then the later stages, then the notes. */
  lemma SpecReplayed(s: Spec, c: Call)
    ensures Rising(0, SpecThen(s, Nil))
    ensures c in Elements(SpecThen(s, Nil)) <==> SpecCall(s, c)
  {
    var notes := If(s.notes != "", UpdateNotes(s.slug, s.notes), Nil);
    StageReplays(s, notes, c);
    OutputsReplay(s, StageThen(s, notes), c);
  }

  lemma StageReplays(s: Spec, notes: Plan, c: Call)
    requires notes == If(s.notes != "", UpdateNotes(s.slug, s.notes), Nil)
    ensures Rising(5, StageThen(s, notes))
    ensures c in Elements(StageThen(s, notes)) <==> (c.TransitionStage? || c.UpdateNotes?) && SpecCall(s, c)
  {
    IfReplays(15, s.notes != "", UpdateNotes(s.slug, s.notes), Nil, c);
    RisingLower(5, 15, notes);
    if StageOrder(s.stage) > StageOrder("decompose") {
      var last := TransitionStage(s.slug, "done", s.stage);
      var terminal := If(Terminal(s.stage), last, notes);
      if Terminal(s.stage) {
        RisingLower(Place(last) + 1, 15, notes);
        IfReplays(13, true, last, notes, c);
      } else {
        RisingLower(13, 15, notes);
      }
      ChainRises(s, 0, terminal);
      ChainReplays(s, 0, terminal, c);
      RisingLower(5, 9, ChainThen(s, 0, terminal));
    }
  }

  lemma DecisionReplayed(x: Decision, c: Call)
    ensures Rising(0, DecisionThen(x, Nil))
    ensures c in Elements(DecisionThen(x, Nil)) <==> DecisionCall(x, c)
  {
    IfReplays(1, x.status != "" && x.status != "proposed", UpdateDecision(x.slug, x.status, x.supersededBy), Nil, c);
  }

  /** The same for a slice: one that was done is claimed, then completed. */
  lemma SliceReplayed(s: Slice, c: Call)
    ensures Rising(0, SliceThen(s, Nil))
    ensures c in Elements(SliceThen(s, Nil)) <==> SliceCall(s, c)
  {
    var complete := If(s.status == "done", CompleteSlice(s.slug), Nil);
    IfReplays(2, s.status == "done", CompleteSlice(s.slug), Nil, c);
    IfReplays(1, (s.status == "claimed" || s.status == "done") && s.assignedTo != "", ClaimSlice(s.slug, s.assignedTo), complete, c);
  }

  /** What a call puts into the store. */
  datatype Item =
    | SpecItem(spec: Spec) | DecisionItem(decision: Decision) | SliceItem(slice: Slice) | EdgeItem(edge: Edge)
    | FindingItem(finding: Finding) | ConversationItem(conversation: Conversation) | MappingItem(mapping: SyncMapping)
    | EventItem(event: Event)

  function FindingItems(findings: seq<Finding>): seq<Item> {
    seq(|findings|, i requires 0 <= i < |findings| => FindingItem(findings[i]))
  }

  function Stores(c: Call): seq<Item> {
    match c
    case CreateSpec(s, _, _) => [SpecItem(s)]
    case CreateDecision(x) => [DecisionItem(x)]
    case CreateSlice(s) => [SliceItem(s)]
    case AddEdge(e) => [EdgeItem(e)]
    case StoreFindings(key, inputs) =>
      FindingItems(seq(|inputs|, i requires 0 <= i < |inputs| => Finding(key.0, key.1, inputs[i])))
    case RecordConversation(v) => [ConversationItem(v)]
    case CreateSyncMapping(m) => [MappingItem(m)]
    case RecordBlocker(e) => [EventItem(e)]
    case RecordProgress(e) => [EventItem(e)]
    case _ => []
  }

  function Contents(plan: Plan): seq<Item> {
    match plan
    case Nil => []
    case Cons(c, rest) => Stores(c) + Contents(rest)
  }

  /** A list of the document from position i on, as items. */
  function From<T>(list: seq<T>, i: nat, item: T -> Item): seq<Item>
    decreases |list| - i
  {
    if i >= |list| then [] else [item(list[i])] + From(list, i + 1, item)
  }

  lemma Front(x: Item, a: seq<Item>, b: seq<Item>)
    ensures [x] + (a + b) == [x] + a + b
  {
  }

  lemma ContentsIf(wanted: bool, c: Call, rest: Plan)
    requires Stores(c) == []
    ensures Contents(If(wanted, c, rest)) == Contents(rest)
  {
  }

  lemma {:induction false} ContentsChain(s: Spec, i: nat, rest: Plan)
    ensures Contents(ChainThen(s, i, rest)) == Contents(rest)
    decreases |CHAIN| - i
  {
    if !(i + 1 >= |CHAIN| || StageOrder(CHAIN[i + 1]) > StageOrder(s.stage)) {
      ContentsChain(s, i + 1, rest);
    }
  }

  lemma ContentsStage(s: Spec, rest: Plan)
    ensures Contents(StageThen(s, rest)) == Contents(rest)
  {
    var terminal := TransitionStage(s.slug, "done", s.stage);
    ContentsIf(Terminal(s.stage), terminal, rest);
    ContentsChain(s, 0, If(Terminal(s.stage), terminal, rest));
  }

  lemma ContentsOutputs(s: Spec, rest: Plan)
    ensures Contents(OutputsThen(s, rest)) == Contents(rest)
  {
    var p := rest;
    ContentsIf(s.hasDecompose, StoreOutput(s.slug, Decompose), p);
    p := If(s.hasDecompose, StoreOutput(s.slug, Decompose), p);
    ContentsIf(s.hasSpecify, StoreOutput(s.slug, Specify), p);
    p := If(s.hasSpecify, StoreOutput(s.slug, Specify), p);
    ContentsIf(s.hasShape, StoreOutput(s.slug, Shape), p);
    p := If(s.hasShape, StoreOutput(s.slug, Shape), p);
    ContentsIf(s.hasSpark, StoreOutput(s.slug, Spark), p);
  }

  lemma ContentsSpec(s: Spec, rest: Plan)
    ensures Contents(SpecThen(s, rest)) == [SpecItem(s)] + Contents(rest)
  {
    var notes := If(s.notes != "", UpdateNotes(s.slug, s.notes), rest);
    ContentsIf(s.notes != "", UpdateNotes(s.slug, s.notes), rest);
    ContentsStage(s, notes);
    ContentsOutputs(s, StageThen(s, notes));
  }

  lemma {:induction false} ContentsSpecs(d: Data, i: nat, rest: Plan)
    ensures Contents(SpecsThen(d, i, rest)) == From(d.specs, i, s => SpecItem(s)) + Contents(rest)
    decreases |d.specs| - i
  {
    if i < |d.specs| {
      ContentsSpecs(d, i + 1, rest);
      Front(SpecItem(d.specs[i]), From(d.specs, i + 1, s => SpecItem(s)), Contents(rest));
      ContentsSpec(d.specs[i], SpecsThen(d, i + 1, rest));
    }
  }

  lemma {:induction false} ContentsDecisions(d: Data, i: nat, rest: Plan)
    ensures Contents(DecisionsThen(d, i, rest)) == From(d.decisions, i, x => DecisionItem(x)) + Contents(rest)
    decreases |d.decisions| - i
  {
    if i < |d.decisions| {
      ContentsDecisions(d, i + 1, rest);
      Front(DecisionItem(d.decisions[i]), From(d.decisions, i + 1, x => DecisionItem(x)), Contents(rest));
      var x := d.decisions[i];
      ContentsIf(x.status != "" && x.status != "proposed", UpdateDecision(x.slug, x.status, x.supersededBy), DecisionsThen(d, i + 1, rest));
    }
  }

  lemma {:induction false} ContentsSlices(d: Data, i: nat, rest: Plan)
    ensures Contents(SlicesThen(d, i, rest)) == From(d.slices, i, s => SliceItem(s)) + Contents(rest)
    decreases |d.slices| - i
  {
    if i < |d.slices| {
      ContentsSlices(d, i + 1, rest);
      Front(SliceItem(d.slices[i]), From(d.slices, i + 1, s => SliceItem(s)), Contents(rest));
      var s, p := d.slices[i], SlicesThen(d, i + 1, rest);
      ContentsIf(s.status == "done", CompleteSlice(s.slug), p);
      p := If(s.status == "done", CompleteSlice(s.slug), p);
      ContentsIf((s.status == "claimed" || s.status == "done") && s.assignedTo != "", ClaimSlice(s.slug, s.assignedTo), p);
    }
  }

  lemma {:induction false} ContentsEdges(d: Data, i: nat, rest: Plan)
    ensures Contents(EdgesThen(d, i, rest)) == From(d.edges, i, e => EdgeItem(e)) + Contents(rest)
    decreases |d.edges| - i
  {
    if i < |d.edges| {
      ContentsEdges(d, i + 1, rest);
      Front(EdgeItem(d.edges[i]), From(d.edges, i + 1, e => EdgeItem(e)), Contents(rest));
    }
  }

  lemma {:induction false} ContentsConversations(d: Data, i: nat, rest: Plan)
    ensures Contents(ConversationsThen(d, i, rest)) == From(d.conversations, i, v => ConversationItem(v)) + Contents(rest)
    decreases |d.conversations| - i
  {
    if i < |d.conversations| {
      ContentsConversations(d, i + 1, rest);
      Front(ConversationItem(d.conversations[i]), From(d.conversations, i + 1, v => ConversationItem(v)), Contents(rest));
    }
  }

  lemma {:induction false} ContentsMappings(d: Data, i: nat, rest: Plan)
    ensures Contents(MappingsThen(d, i, rest)) == From(d.mappings, i, m => MappingItem(m)) + Contents(rest)
    decreases |d.mappings| - i
  {
    if i < |d.mappings| {
      ContentsMappings(d, i + 1, rest);
      Front(MappingItem(d.mappings[i]), From(d.mappings, i + 1, m => MappingItem(m)), Contents(rest));
    }
  }

  lemma {:induction false} ContentsEvents(d: Data, i: nat, rest: Plan)
    ensures Contents(EventsThen(d, i, rest)) == From(d.events, i, e => EventItem(e)) + Contents(rest)
    decreases |d.events| - i
  {
    if i < |d.events| {
      ContentsEvents(d, i + 1, rest);
      Front(EventItem(d.events[i]), From(d.events, i + 1, e => EventItem(e)), Contents(rest));
    }
  }

  /** The findings of all groups, group by group. */
  function GroupedItems(findings: seq<Finding>, order: seq<GroupKey>): seq<Item> {
    if order == [] then [] else FindingItems(Members(findings, {order[0]})) + GroupedItems(findings, order[1..])
  }

  lemma {:induction false} MembersHaveKey(findings: seq<Finding>, key: GroupKey)
    ensures forall i :: 0 <= i < |Members(findings, {key})| ==> KeyOf(Members(findings, {key})[i]) == key
  {
    if findings != [] {
      MembersHaveKey(findings[..|findings| - 1], key);
    }
  }

  /** What one group stores are its findings. */
  lemma GroupStores(findings: seq<Finding>, key: GroupKey)
    ensures Stores(StoreFindings(key, GroupInputs(findings, key))) == FindingItems(Members(findings, {key}))
  {
    MembersHaveKey(findings, key);
    var members, inputs := Members(findings, {key}), GroupInputs(findings, key);
    var back := seq(|inputs|, i requires 0 <= i < |inputs| => Finding(key.0, key.1, inputs[i]));
    forall i | 0 <= i < |members| ensures back[i] == members[i] {
      assert KeyOf(members[i]) == key;
    }
    assert back == members;
  }

  lemma ContentsFront(c: Call, plan: Plan, items: seq<Item>, more: seq<Item>, tail: seq<Item>)
    requires Stores(c) == items && Contents(plan) == more + tail
    ensures Contents(Cons(c, plan)) == (items + more) + tail
  {
    assert items + (more + tail) == (items + more) + tail;
  }

  lemma {:induction false} ContentsGroups(d: Data, order: seq<GroupKey>, rest: Plan)
    ensures Contents(GroupsThen(d, order, rest)) == GroupedItems(d.findings, order) + Contents(rest)
  {
    if order != [] {
      ContentsGroups(d, order[1..], rest);
      GroupStores(d.findings, order[0]);
      ContentsFront(StoreFindings(order[0], GroupInputs(d.findings, order[0])), GroupsThen(d, order[1..], rest),
                    FindingItems(Members(d.findings, {order[0]})), GroupedItems(d.findings, order[1..]), Contents(rest));
    }
  }

  /** The plan stores the lists of the document one after the other, each item once
      and in its order; only the findings are rearranged, group by group. */
  lemma PlanContents(d: Data, order: seq<GroupKey>)
    ensures Contents(EntityPlan(d, order)) ==
            From(d.specs, 0, s => SpecItem(s)) + (From(d.decisions, 0, x => DecisionItem(x)) +
            (From(d.slices, 0, s => SliceItem(s)) + (From(d.edges, 0, e => EdgeItem(e)) +
            (GroupedItems(d.findings, order) + (From(d.conversations, 0, v => ConversationItem(v)) +
            (From(d.mappings, 0, m => MappingItem(m)) + (From(d.events, 0, e => EventItem(e)) + [])))))))
  {
    ContentsEvents(d, 0, Nil);
    ContentsMappings(d, 0, EventsThen(d, 0, Nil));
    ContentsConversations(d, 0, MappingsThen(d, 0, EventsThen(d, 0, Nil)));
    var p := RecordsThen(d);
    ContentsGroups(d, order, p);
    p := GroupsThen(d, order, p);
    ContentsEdges(d, 0, p);
    p := EdgesThen(d, 0, p);
    ContentsSlices(d, 0, p);
    p := SlicesThen(d, 0, p);
    ContentsDecisions(d, 0, p);
    ContentsSpecs(d, 0, DecisionsThen(d, 0, p));
  }
}
