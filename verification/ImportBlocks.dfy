/** What the calls of an import are, entity by entity, said of the document alone: each
    entity's block holds exactly the calls that its fields ask for, in their order
    (internal/export/engine.go:371-623). */
module ImportBlocks {
  import opened Wrappers
  import opened Document
  import opened ImportPlan

  function Append(a: Plan, b: Plan): Plan {
    match a
    case Nil => b
    case Cons(c, rest) => Cons(c, Append(rest, b))
  }

  lemma {:induction false} AppendElements(a: Plan, b: Plan, c: Call)
    ensures c in Elements(Append(a, b)) <==> c in Elements(a) || c in Elements(b)
  {
    if a.Cons? {
      AppendElements(a.tail, b, c);
    }
  }

  lemma {:induction false} AppendTwice(a: Plan, b: Plan, c: Plan)
    ensures Append(Append(a, b), c) == Append(a, Append(b, c))
  {
    if a.Cons? {
      AppendTwice(a.tail, b, c);
    }
  }

  /** The calls of one item: rising places, and exactly those that belong to it. */
  ghost predicate Block<T(!new)>(block: Plan, item: T, belongs: (T, Call) -> bool) {
    Rising(0, block) && forall c :: c in Elements(block) <==> belongs(item, c)
  }

  /** The blocks of the items from i on, one after the other. */
  ghost predicate Blocks<T(!new)>(plan: Plan, items: seq<T>, i: nat, belongs: (T, Call) -> bool)
    decreases |items| - i
  {
    if i >= |items| then plan == Nil
    else exists block, rest :: plan == Append(block, rest) && Block(block, items[i], belongs) && Blocks(rest, items, i + 1, belongs)
  }

  lemma NextBlock<T(!new)>(block: Plan, rest: Plan, items: seq<T>, i: nat, belongs: (T, Call) -> bool)
    requires i < |items| && Block(block, items[i], belongs) && Blocks(rest, items, i + 1, belongs)
    ensures Blocks(Append(block, rest), items, i, belongs)
  {
  }

  lemma OneCall<T(!new)>(c: Call, rest: Plan, items: seq<T>, i: nat, belongs: (T, Call) -> bool)
    requires i < |items| && Blocks(rest, items, i + 1, belongs) && forall d :: belongs(items[i], d) <==> d == c
    ensures Blocks(Cons(c, rest), items, i, belongs)
  {
    var block := Cons(c, Nil);
    assert Append(block, rest) == Cons(c, rest);
    forall d ensures d in Elements(block) <==> belongs(items[i], d) {
      assert Elements(block) == {c};
    }
    NextBlock(block, rest, items, i, belongs);
  }

  predicate LayerCall(layer: string, c: Call) { c == UpdateConstitution(layer) }
  predicate EdgeCall(e: Edge, c: Call) { c == AddEdge(e) }
  predicate ConversationCall(v: Conversation, c: Call) { c == RecordConversation(v) }
  predicate MappingCall(m: SyncMapping, c: Call) { c == CreateSyncMapping(m) }
  predicate RecordedEvent(e: Event, c: Call) { c == if e.eventType == BlockerEvent then RecordBlocker(e) else RecordProgress(e) }

  function GroupCall(findings: seq<Finding>): (GroupKey, Call) -> bool {
    (key: GroupKey, c: Call) => c == StoreFindings(key, GroupInputs(findings, key))
  }

  /** The parts of an import, in order. */
  datatype Sections = Sections(
    project: Plan, layers: Plan, specs: Plan, decisions: Plan, slices: Plan, edges: Plan, groups: Plan,
    conversations: Plan, mappings: Plan, events: Plan)
  {
    function Entities(): Plan {
      Append(specs, Append(decisions, Append(slices, Append(edges, Append(groups,
        Append(conversations, Append(mappings, events)))))))
    }
    function All(): Plan {
      Append(project, Append(layers, Entities()))
    }
  }

  /** The constitution layers that a document asks for, by its schema version. */
  function DocumentLayers(doc: Document): seq<string> {
    if doc.schemaVersion == 2 then
      if doc.data.constitutions.Some? then doc.data.constitutions.value else []
    else
      if doc.data.constitution.Some? then [doc.data.constitution.value] else []
  }

  /** An unknown schema version, or a field of the other version. */
  predicate Mixed(doc: Document) {
    || doc.schemaVersion !in {1, 2}
    || (doc.schemaVersion == 1 && doc.data.constitutions.Some?)
    || (doc.schemaVersion == 2 && doc.data.constitution.Some?)
  }

  ghost predicate Proper(doc: Document, order: seq<GroupKey>, parts: Sections) {
    && parts.project == (if doc.projectSlug == "" then Nil else Cons(EnsureProject(doc.projectSlug), Nil))
    && Blocks(parts.layers, DocumentLayers(doc), 0, LayerCall)
    && ProperEntities(doc.data, order, parts)
  }

  ghost predicate ProperEntities(d: Data, order: seq<GroupKey>, parts: Sections) {
    && Blocks(parts.specs, d.specs, 0, SpecCall) && Blocks(parts.decisions, d.decisions, 0, DecisionCall)
    && Blocks(parts.slices, d.slices, 0, SliceCall) && Blocks(parts.edges, d.edges, 0, EdgeCall)
    && Blocks(parts.groups, order, 0, GroupCall(d.findings))
    && Blocks(parts.conversations, d.conversations, 0, ConversationCall)
    && Blocks(parts.mappings, d.mappings, 0, MappingCall) && Blocks(parts.events, d.events, 0, RecordedEvent)
  }

  // ---------------------------------------------------------------- the plan consists of such blocks

  lemma IfAppend(wanted: bool, c: Call, a: Plan, rest: Plan)
    ensures If(wanted, c, Append(a, rest)) == Append(If(wanted, c, a), rest)
  {
  }

  lemma {:induction false} ChainAppend(s: Spec, i: nat, a: Plan, rest: Plan)
    ensures ChainThen(s, i, Append(a, rest)) == Append(ChainThen(s, i, a), rest)
    decreases |CHAIN| - i
  {
    if !(i + 1 >= |CHAIN| || StageOrder(CHAIN[i + 1]) > StageOrder(s.stage)) {
      ChainAppend(s, i + 1, a, rest);
    }
  }

  lemma StageAppend(s: Spec, a: Plan, rest: Plan)
    ensures StageThen(s, Append(a, rest)) == Append(StageThen(s, a), rest)
  {
    var terminal := TransitionStage(s.slug, "done", s.stage);
    IfAppend(Terminal(s.stage), terminal, a, rest);
    ChainAppend(s, 0, If(Terminal(s.stage), terminal, a), rest);
  }

  lemma OutputsAppend(s: Spec, a: Plan, rest: Plan)
    ensures OutputsThen(s, Append(a, rest)) == Append(OutputsThen(s, a), rest)
  {
    var p4 := If(s.hasDecompose, StoreOutput(s.slug, Decompose), a);
    var p3 := If(s.hasSpecify, StoreOutput(s.slug, Specify), p4);
    IfAppend(s.hasDecompose, StoreOutput(s.slug, Decompose), a, rest);
    IfAppend(s.hasSpecify, StoreOutput(s.slug, Specify), p4, rest);
    IfAppend(s.hasShape, StoreOutput(s.slug, Shape), p3, rest);
    IfAppend(s.hasSpark, StoreOutput(s.slug, Spark), If(s.hasShape, StoreOutput(s.slug, Shape), p3), rest);
  }

  lemma SpecAppend(s: Spec, rest: Plan)
    ensures SpecThen(s, rest) == Append(SpecThen(s, Nil), rest)
  {
    var notes := UpdateNotes(s.slug, s.notes);
    IfAppend(s.notes != "", notes, Nil, rest);
    StageAppend(s, If(s.notes != "", notes, Nil), rest);
    OutputsAppend(s, StageThen(s, If(s.notes != "", notes, Nil)), rest);
  }

  lemma SpecBlock(s: Spec)
    ensures Block(SpecThen(s, Nil), s, SpecCall)
  {
    forall c ensures c in Elements(SpecThen(s, Nil)) <==> SpecCall(s, c) {
      SpecReplayed(s, c);
    }
    SpecReplayed(s, UpdateNotes("", ""));
  }

  lemma {:induction false} SpecsSection(d: Data, i: nat, rest: Plan) returns (a: Plan)
    ensures SpecsThen(d, i, rest) == Append(a, rest) && Blocks(a, d.specs, i, SpecCall)
    decreases |d.specs| - i
  {
    if i >= |d.specs| {
      a := Nil;
    } else {
      var tail := SpecsSection(d, i + 1, rest);
      var s := d.specs[i];
      SpecAppend(s, SpecsThen(d, i + 1, rest));
      SpecBlock(s);
      AppendTwice(SpecThen(s, Nil), tail, rest);
      a := Append(SpecThen(s, Nil), tail);
      NextBlock(SpecThen(s, Nil), tail, d.specs, i, SpecCall);
    }
  }

  lemma DecisionBlock(x: Decision, rest: Plan)
    ensures DecisionThen(x, rest) == Append(DecisionThen(x, Nil), rest) && Block(DecisionThen(x, Nil), x, DecisionCall)
  {
    IfAppend(x.status != "" && x.status != "proposed", UpdateDecision(x.slug, x.status, x.supersededBy), Nil, rest);
    forall c ensures c in Elements(DecisionThen(x, Nil)) <==> DecisionCall(x, c) {
      DecisionReplayed(x, c);
    }
    DecisionReplayed(x, CreateDecision(x));
  }

  lemma {:induction false} DecisionsSection(d: Data, i: nat, rest: Plan) returns (a: Plan)
    ensures DecisionsThen(d, i, rest) == Append(a, rest) && Blocks(a, d.decisions, i, DecisionCall)
    decreases |d.decisions| - i
  {
    if i >= |d.decisions| {
      a := Nil;
    } else {
      var tail := DecisionsSection(d, i + 1, rest);
      var x := d.decisions[i];
      DecisionBlock(x, DecisionsThen(d, i + 1, rest));
      AppendTwice(DecisionThen(x, Nil), tail, rest);
      a := Append(DecisionThen(x, Nil), tail);
      NextBlock(DecisionThen(x, Nil), tail, d.decisions, i, DecisionCall);
    }
  }

  lemma SliceBlock(s: Slice, rest: Plan)
    ensures SliceThen(s, rest) == Append(SliceThen(s, Nil), rest) && Block(SliceThen(s, Nil), s, SliceCall)
  {
    IfAppend(s.status == "done", CompleteSlice(s.slug), Nil, rest);
    IfAppend((s.status == "claimed" || s.status == "done") && s.assignedTo != "", ClaimSlice(s.slug, s.assignedTo),
             If(s.status == "done", CompleteSlice(s.slug), Nil), rest);
    forall c ensures c in Elements(SliceThen(s, Nil)) <==> SliceCall(s, c) {
      SliceReplayed(s, c);
    }
    SliceReplayed(s, CreateSlice(s));
  }

  lemma {:induction false} SlicesSection(d: Data, i: nat, rest: Plan) returns (a: Plan)
    ensures SlicesThen(d, i, rest) == Append(a, rest) && Blocks(a, d.slices, i, SliceCall)
    decreases |d.slices| - i
  {
    if i >= |d.slices| {
      a := Nil;
    } else {
      var tail := SlicesSection(d, i + 1, rest);
      var s := d.slices[i];
      SliceBlock(s, SlicesThen(d, i + 1, rest));
      AppendTwice(SliceThen(s, Nil), tail, rest);
      a := Append(SliceThen(s, Nil), tail);
      NextBlock(SliceThen(s, Nil), tail, d.slices, i, SliceCall);
    }
  }

  lemma {:induction false} LayersSection(layers: seq<string>, i: nat, rest: Plan) returns (a: Plan)
    ensures LayersThen(layers, i, rest) == Append(a, rest) && Blocks(a, layers, i, LayerCall)
    decreases |layers| - i
  {
    if i >= |layers| {
      a := Nil;
    } else {
      a := LayersSection(layers, i + 1, rest);
      OneCall(UpdateConstitution(layers[i]), a, layers, i, LayerCall);
      a := Cons(UpdateConstitution(layers[i]), a);
    }
  }

  lemma {:induction false} EdgesSection(d: Data, i: nat, rest: Plan) returns (a: Plan)
    ensures EdgesThen(d, i, rest) == Append(a, rest) && Blocks(a, d.edges, i, EdgeCall)
    decreases |d.edges| - i
  {
    if i >= |d.edges| {
      a := Nil;
    } else {
      a := EdgesSection(d, i + 1, rest);
      OneCall(AddEdge(d.edges[i]), a, d.edges, i, EdgeCall);
      a := Cons(AddEdge(d.edges[i]), a);
    }
  }

  lemma {:induction false} GroupsSection(d: Data, order: seq<GroupKey>, i: nat, rest: Plan) returns (a: Plan)
    requires i <= |order|
    ensures GroupsThen(d, order[i..], rest) == Append(a, rest) && Blocks(a, order, i, GroupCall(d.findings))
    decreases |order| - i
  {
    if i == |order| {
      a := Nil;
    } else {
      a := GroupsSection(d, order, i + 1, rest);
      var c := StoreFindings(order[i], GroupInputs(d.findings, order[i]));
      assert order[i..][0] == order[i] && order[i..][1..] == order[i + 1..];
      OneCall(c, a, order, i, GroupCall(d.findings));
      a := Cons(c, a);
    }
  }

  lemma {:induction false} ConversationsSection(d: Data, i: nat, rest: Plan) returns (a: Plan)
    ensures ConversationsThen(d, i, rest) == Append(a, rest) && Blocks(a, d.conversations, i, ConversationCall)
    decreases |d.conversations| - i
  {
    if i >= |d.conversations| {
      a := Nil;
    } else {
      a := ConversationsSection(d, i + 1, rest);
      OneCall(RecordConversation(d.conversations[i]), a, d.conversations, i, ConversationCall);
      a := Cons(RecordConversation(d.conversations[i]), a);
    }
  }

  lemma {:induction false} MappingsSection(d: Data, i: nat, rest: Plan) returns (a: Plan)
    ensures MappingsThen(d, i, rest) == Append(a, rest) && Blocks(a, d.mappings, i, MappingCall)
    decreases |d.mappings| - i
  {
    if i >= |d.mappings| {
      a := Nil;
    } else {
      a := MappingsSection(d, i + 1, rest);
      OneCall(CreateSyncMapping(d.mappings[i]), a, d.mappings, i, MappingCall);
      a := Cons(CreateSyncMapping(d.mappings[i]), a);
    }
  }

  lemma {:induction false} EventsSection(d: Data, i: nat) returns (a: Plan)
    ensures EventsThen(d, i, Nil) == a && Blocks(a, d.events, i, RecordedEvent)
    decreases |d.events| - i
  {
    if i >= |d.events| {
      a := Nil;
    } else {
      a := EventsSection(d, i + 1);
      OneCall(ImportPlan.EventCall(d.events[i]), a, d.events, i, RecordedEvent);
      a := Cons(ImportPlan.EventCall(d.events[i]), a);
    }
  }

  lemma RecordSections(d: Data) returns (conversations: Plan, mappings: Plan, events: Plan)
    ensures RecordsThen(d) == Append(conversations, Append(mappings, events))
    ensures Blocks(conversations, d.conversations, 0, ConversationCall)
    ensures Blocks(mappings, d.mappings, 0, MappingCall) && Blocks(events, d.events, 0, RecordedEvent)
  {
    events := EventsSection(d, 0);
    mappings := MappingsSection(d, 0, events);
    conversations := ConversationsSection(d, 0, Append(mappings, events));
  }

  lemma LinkSections(d: Data, order: seq<GroupKey>, records: Plan) returns (edges: Plan, groups: Plan)
    ensures EdgesThen(d, 0, GroupsThen(d, order, records)) == Append(edges, Append(groups, records))
    ensures Blocks(edges, d.edges, 0, EdgeCall) && Blocks(groups, order, 0, GroupCall(d.findings))
  {
    assert order[0..] == order;
    groups := GroupsSection(d, order, 0, records);
    edges := EdgesSection(d, 0, Append(groups, records));
  }

  lemma NodeSections(d: Data, rest: Plan) returns (specs: Plan, decisions: Plan, slices: Plan)
    ensures SpecsThen(d, 0, DecisionsThen(d, 0, SlicesThen(d, 0, rest))) == Append(specs, Append(decisions, Append(slices, rest)))
    ensures Blocks(specs, d.specs, 0, SpecCall) && Blocks(decisions, d.decisions, 0, DecisionCall)
    ensures Blocks(slices, d.slices, 0, SliceCall)
  {
    slices := SlicesSection(d, 0, rest);
    decisions := DecisionsSection(d, 0, Append(slices, rest));
    specs := SpecsSection(d, 0, Append(decisions, Append(slices, rest)));
  }

  lemma EntitySections(d: Data, order: seq<GroupKey>) returns (parts: Sections)
    ensures ProperEntities(d, order, parts) && EntityPlan(d, order) == parts.Entities()
  {
    var conversations, mappings, events := RecordSections(d);
    var edges, groups := LinkSections(d, order, RecordsThen(d));
    var specs, decisions, slices := NodeSections(d, Append(edges, Append(groups, RecordsThen(d))));
    parts := Sections(Nil, Nil, specs, decisions, slices, edges, groups, conversations, mappings, events);
  }

  /** The plan of a document that does not mix the schema versions consists of exactly the
      blocks of its entities, section by section. */
  lemma PlanIsProper(doc: Document, order: seq<GroupKey>) returns (parts: Sections)
    requires Layers(doc).Some?
    ensures Proper(doc, order, parts) && FullPlan(doc, Layers(doc).value, order) == parts.All()
  {
    LayersExact(doc);
    var entities := EntitySections(doc.data, order);
    var layers := LayersSection(DocumentLayers(doc), 0, EntityPlan(doc.data, order));
    var project: Plan := if doc.projectSlug == "" then Nil else Cons(EnsureProject(doc.projectSlug), Nil);
    parts := entities.(project := project, layers := layers);
    assert parts.Entities() == entities.Entities();
    AppendOne(EnsureProject(doc.projectSlug), Append(layers, entities.Entities()));
  }

  lemma AppendOne(c: Call, rest: Plan)
    ensures Append(Cons(c, Nil), rest) == Cons(c, rest)
  {
  }

  /** Which documents are refused. */
  lemma LayersExact(doc: Document)
    ensures Layers(doc).None? <==> Mixed(doc)
    ensures Layers(doc).Some? ==> Layers(doc).value == DocumentLayers(doc)
  {
  }

  /** The calls that an import cannot do without. */
  predicate MustWork(c: Call) {
    || c.EnsureProject? || c.UpdateConstitution? || c.CreateSpec? || c.StoreOutput? || c.CreateDecision? || c.CreateSlice?
    || (c.TransitionStage? && c.to !in {"superseded", "abandoned"})
  }

  lemma FatalMeansMustWork(c: Call)
    ensures Fatal(c) <==> MustWork(c)
  {
  }

  // ---------------------------------------------------------------- the constitution calls

  /** The layers of the constitution calls, in order. */
  function LayersOf(plan: Plan): seq<string> {
    match plan
    case Nil => []
    case Cons(UpdateConstitution(layer), rest) => [layer] + LayersOf(rest)
    case Cons(_, rest) => LayersOf(rest)
  }

  lemma {:induction false} LayersOfAppend(a: Plan, b: Plan)
    ensures LayersOf(Append(a, b)) == LayersOf(a) + LayersOf(b)
  {
    if a.Cons? {
      LayersOfAppend(a.tail, b);
    }
  }

  lemma {:induction false} NoLayers(a: Plan)
    requires forall c :: c in Elements(a) ==> !c.UpdateConstitution?
    ensures LayersOf(a) == []
  {
    if a.Cons? {
      assert a.head in Elements(a);
      NoLayers(a.tail);
    }
  }

  lemma {:induction false} BlocksWithoutLayers<T(!new)>(a: Plan, items: seq<T>, i: nat, belongs: (T, Call) -> bool)
    requires Blocks(a, items, i, belongs) && forall x, c :: belongs(x, c) ==> !c.UpdateConstitution?
    ensures LayersOf(a) == []
    decreases |items| - i
  {
    if i < |items| {
      var block, rest :| a == Append(block, rest) && Block(block, items[i], belongs) && Blocks(rest, items, i + 1, belongs);
      NoLayers(block);
      BlocksWithoutLayers(rest, items, i + 1, belongs);
      LayersOfAppend(block, rest);
    }
  }

  lemma {:induction false} BlocksOfLayers(a: Plan, layers: seq<string>, i: nat)
    requires Blocks(a, layers, i, LayerCall) && i <= |layers|
    ensures LayersOf(a) == layers[i..]
    decreases |layers| - i
  {
    if i < |layers| {
      var block, rest :| a == Append(block, rest) && Block(block, layers[i], LayerCall) && Blocks(rest, layers, i + 1, LayerCall);
      BlocksOfLayers(rest, layers, i + 1);
      OneLayer(block, layers[i]);
      LayersOfAppend(block, rest);
      assert layers[i..] == [layers[i]] + layers[i + 1..];
    }
  }

  lemma OneLayer(block: Plan, layer: string)
    requires Block(block, layer, LayerCall)
    ensures LayersOf(block) == [layer]
  {
    var c := UpdateConstitution(layer);
    assert LayerCall(layer, c) && c in Elements(block);
    assert block.head in Elements(block) && LayerCall(layer, block.head);
    assert Rising(Place(block.head) + 1, block.tail);
  }

  lemma LayersOfSection<T(!new)>(a: Plan, items: seq<T>, belongs: (T, Call) -> bool, rest: Plan)
    requires Blocks(a, items, 0, belongs) && forall x, c :: belongs(x, c) ==> !c.UpdateConstitution?
    ensures LayersOf(Append(a, rest)) == LayersOf(rest)
  {
    BlocksWithoutLayers(a, items, 0, belongs);
    LayersOfAppend(a, rest);
  }

  /** The constitution calls of a proper run are the layers that its document asks for. */
  lemma ProperLayers(doc: Document, order: seq<GroupKey>, p: Sections)
    requires Proper(doc, order, p)
    ensures LayersOf(p.All()) == DocumentLayers(doc)
  {
    var d := doc.data;
    BlocksWithoutLayers(p.events, d.events, 0, RecordedEvent);
    var rest := p.events;
    LayersOfSection(p.mappings, d.mappings, MappingCall, rest);
    rest := Append(p.mappings, rest);
    LayersOfSection(p.conversations, d.conversations, ConversationCall, rest);
    rest := Append(p.conversations, rest);
    LayersOfSection(p.groups, order, GroupCall(d.findings), rest);
    rest := Append(p.groups, rest);
    LayersOfSection(p.edges, d.edges, EdgeCall, rest);
    rest := Append(p.edges, rest);
    LayersOfSection(p.slices, d.slices, SliceCall, rest);
    rest := Append(p.slices, rest);
    LayersOfSection(p.decisions, d.decisions, DecisionCall, rest);
    rest := Append(p.decisions, rest);
    LayersOfSection(p.specs, d.specs, SpecCall, rest);
    rest := Append(p.specs, rest);
    BlocksOfLayers(p.layers, DocumentLayers(doc), 0);
    LayersOfAppend(p.layers, rest);
    LayersOfAppend(p.project, Append(p.layers, rest));
    assert DocumentLayers(doc)[0..] == DocumentLayers(doc);
  }
}
