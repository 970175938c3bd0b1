/** The exported project document, its referential integrity, and the grouping of
    findings (internal/export/schema.go, internal/export/engine.go). */
module Document {
  import opened Wrappers

  datatype Spec = Spec(
    slug: string, stage: string, provenance: string, hasSpark: bool, hasShape: bool, hasSpecify: bool, hasDecompose: bool,
    notes: string, supersededBy: string, supersedes: string)
  datatype Decision = Decision(slug: string, status: string, supersededBy: string)
  datatype Slice = Slice(slug: string, parentSlug: string, status: string, assignedTo: string)
  datatype Edge = Edge(fromSlug: string, toSlug: string, edgeType: string)
  datatype FindingInput = FindingInput(severity: string, summary: string, detail: string, constr: string, resolution: string)
  datatype Finding = Finding(specSlug: string, passType: string, input: FindingInput)
  type Int32 = v: int | -0x8000_0000 <= v < 0x8000_0000
  datatype ChangeLog = ChangeLog(specSlug: string, version: Int32, stage: string)
  datatype Conversation = Conversation(specSlug: string, stage: string, version: Int32)
  datatype SyncMapping = SyncMapping(specSlug: string, adapter: string, externalId: string)
  datatype EventType = ProgressEvent | BlockerEvent | CompletionEvent | OtherEvent
  datatype Event = Event(specSlug: string, agent: string, eventType: EventType, message: string)

  datatype Data = Data(
    constitution: Option<string>,         // the v1 field: one layer
    constitutions: Option<seq<string>>,   // the v2 field: layers in order
    specs: seq<Spec>, decisions: seq<Decision>, slices: seq<Slice>, edges: seq<Edge>, findings: seq<Finding>,
    changeLogs: seq<ChangeLog>, conversations: seq<Conversation>, mappings: seq<SyncMapping>, events: seq<Event>)

  datatype Document = Document(schemaVersion: int, projectSlug: string, data: Data)

  // ---------------------------------------------------------------- referential integrity

  function SpecSlugs(d: Data): set<string> {
    set s | s in d.specs :: s.slug
  }

  function NodeSlugs(d: Data): set<string> {
    SpecSlugs(d) + set x | x in d.decisions :: x.slug
  }

  /** The lists of references, and a reference by its list and position. */
  datatype RefList = EdgeFrom | EdgeTo | SliceParent | FindingSpec | ChangeLogSpec | ConversationSpec | MappingSpec | EventSpec
  datatype Ref = Ref(list: RefList, i: nat)

  function Slugs(d: Data, list: RefList): seq<string> {
    match list
    case EdgeFrom => seq(|d.edges|, i requires 0 <= i < |d.edges| => d.edges[i].fromSlug)
    case EdgeTo => seq(|d.edges|, i requires 0 <= i < |d.edges| => d.edges[i].toSlug)
    case SliceParent => seq(|d.slices|, i requires 0 <= i < |d.slices| => d.slices[i].parentSlug)
    case FindingSpec => seq(|d.findings|, i requires 0 <= i < |d.findings| => d.findings[i].specSlug)
    case ChangeLogSpec => seq(|d.changeLogs|, i requires 0 <= i < |d.changeLogs| => d.changeLogs[i].specSlug)
    case ConversationSpec => seq(|d.conversations|, i requires 0 <= i < |d.conversations| => d.conversations[i].specSlug)
    case MappingSpec => seq(|d.mappings|, i requires 0 <= i < |d.mappings| => d.mappings[i].specSlug)
    case EventSpec => seq(|d.events|, i requires 0 <= i < |d.events| => d.events[i].specSlug)
  }

  /** Edges may join specs and decisions; everything else belongs to a spec. */
  function Targets(d: Data, list: RefList): set<string> {
    if list.EdgeFrom? || list.EdgeTo? then NodeSlugs(d) else SpecSlugs(d)
  }

  /** The reference is in the document and names nothing that the document has. */
  predicate Broken(d: Data, r: Ref) {
    r.i < |Slugs(d, r.list)| && Slugs(d, r.list)[r.i] !in Targets(d, r.list)
  }

  ghost predicate RefsHold(d: Data) {
    forall r :: !Broken(d, r)
  }

  ghost predicate NamesSpec(d: Data, slug: string) {
    exists s :: s in d.specs && s.slug == slug
  }

  ghost predicate NamesNode(d: Data, slug: string) {
    NamesSpec(d, slug) || exists x :: x in d.decisions && x.slug == slug
  }

  /** Integrity, said of the lists themselves. */
  ghost predicate Intact(d: Data) {
    && (forall e :: e in d.edges ==> NamesNode(d, e.fromSlug) && NamesNode(d, e.toSlug))
    && (forall s :: s in d.slices ==> NamesSpec(d, s.parentSlug))
    && (forall f :: f in d.findings ==> NamesSpec(d, f.specSlug))
    && (forall c :: c in d.changeLogs ==> NamesSpec(d, c.specSlug))
    && (forall v :: v in d.conversations ==> NamesSpec(d, v.specSlug))
    && (forall m :: m in d.mappings ==> NamesSpec(d, m.specSlug))
    && (forall e :: e in d.events ==> NamesSpec(d, e.specSlug))
  }

  lemma TargetsAreNames(d: Data)
    ensures forall slug :: slug in SpecSlugs(d) <==> NamesSpec(d, slug)
    ensures forall slug :: slug in NodeSlugs(d) <==> NamesNode(d, slug)
  {
  }

  lemma IntactIsSound(d: Data, list: RefList, i: nat)
    requires Intact(d)
    ensures !Broken(d, Ref(list, i))
  {
    TargetsAreNames(d);
    match list
    case EdgeFrom => assert i < |d.edges| ==> d.edges[i] in d.edges;
    case EdgeTo => assert i < |d.edges| ==> d.edges[i] in d.edges;
    case SliceParent => assert i < |d.slices| ==> d.slices[i] in d.slices;
    case FindingSpec => assert i < |d.findings| ==> d.findings[i] in d.findings;
    case ChangeLogSpec => assert i < |d.changeLogs| ==> d.changeLogs[i] in d.changeLogs;
    case ConversationSpec => assert i < |d.conversations| ==> d.conversations[i] in d.conversations;
    case MappingSpec => assert i < |d.mappings| ==> d.mappings[i] in d.mappings;
    case EventSpec => assert i < |d.events| ==> d.events[i] in d.events;
  }

  lemma NotBrokenNames(d: Data, list: RefList, i: nat)
    requires RefsHold(d) && i < |Slugs(d, list)|
    ensures Slugs(d, list)[i] in Targets(d, list)
  {
    assert !Broken(d, Ref(list, i));
  }

  /** No reference is broken exactly when every slug that is mentioned names a spec, or for
      the ends of edges a spec or a decision. */
  lemma RefsHoldExactly(d: Data)
    ensures RefsHold(d) <==> Intact(d)
  {
    if Intact(d) {
      forall r: Ref ensures !Broken(d, r) {
        IntactIsSound(d, r.list, r.i);
      }
    }
    if RefsHold(d) {
      TargetsAreNames(d);
      forall i | 0 <= i < |d.edges| ensures NamesNode(d, d.edges[i].fromSlug) && NamesNode(d, d.edges[i].toSlug) {
        NotBrokenNames(d, EdgeFrom, i);
        NotBrokenNames(d, EdgeTo, i);
      }
      forall i | 0 <= i < |d.slices| ensures NamesSpec(d, d.slices[i].parentSlug) { NotBrokenNames(d, SliceParent, i); }
      forall i | 0 <= i < |d.findings| ensures NamesSpec(d, d.findings[i].specSlug) { NotBrokenNames(d, FindingSpec, i); }
      forall i | 0 <= i < |d.changeLogs| ensures NamesSpec(d, d.changeLogs[i].specSlug) { NotBrokenNames(d, ChangeLogSpec, i); }
      forall i | 0 <= i < |d.conversations| ensures NamesSpec(d, d.conversations[i].specSlug) { NotBrokenNames(d, ConversationSpec, i); }
      forall i | 0 <= i < |d.mappings| ensures NamesSpec(d, d.mappings[i].specSlug) { NotBrokenNames(d, MappingSpec, i); }
      forall i | 0 <= i < |d.events| ensures NamesSpec(d, d.events[i].specSlug) { NotBrokenNames(d, EventSpec, i); }
    }
  }

  /** The order of the lists in a report; the two ends of an edge are checked together. */
  function Rank(list: RefList): nat {
    match list
    case EdgeFrom => 0
    case EdgeTo => 0
    case SliceParent => 1
    case FindingSpec => 2
    case ChangeLogSpec => 3
    case ConversationSpec => 4
    case MappingSpec => 5
    case EventSpec => 6
  }

  predicate Before(a: Ref, b: Ref) {
    || Rank(a.list) < Rank(b.list)
    || (Rank(a.list) == Rank(b.list) && (a.i < b.i || (a.i == b.i && a.list.EdgeFrom? && b.list.EdgeTo?)))
  }

  /** In the order of the document, none twice. */
  predicate Sorted(errs: seq<Ref>) {
    forall i, j :: 0 <= i < j < |errs| ==> Before(errs[i], errs[j])
  }

  lemma SortedSnoc(errs: seq<Ref>, r: Ref)
    requires Sorted(errs) && forall e :: e in errs ==> Before(e, r)
    ensures Sorted(errs + [r])
  {
  }

  /** The check of one list, after those that come before it. */
  method CheckList(d: Data, list: RefList, known: set<string>, before: seq<Ref>) returns (errs: seq<Ref>)
    requires known == Targets(d, list) && Rank(list) > 0
    requires Sorted(before) && forall r :: r in before <==> Broken(d, r) && Rank(r.list) < Rank(list)
    ensures Sorted(errs) && forall r :: r in errs <==> Broken(d, r) && Rank(r.list) <= Rank(list)
  {
    errs := before;
    var slugs := Slugs(d, list);
    for i := 0 to |slugs|
      invariant Sorted(errs)
      invariant forall r :: r in errs <==> Broken(d, r) && (Rank(r.list) < Rank(list) || (r.list == list && r.i < i))
    {
      if slugs[i] !in known {
        SortedSnoc(errs, Ref(list, i));
        errs := errs + [Ref(list, i)];
      }
    }
  }

  /** The slugs of the specs, and of the specs and decisions together. */
  method CollectSlugs(d: Data) returns (specSlugs: set<string>, slugs: set<string>)
    ensures specSlugs == SpecSlugs(d) && slugs == NodeSlugs(d)
  {
    specSlugs := {};
    for i := 0 to |d.specs|
      invariant specSlugs == set s | s in d.specs[..i] :: s.slug
    {
      assert d.specs[..i + 1] == d.specs[..i] + [d.specs[i]];
      specSlugs := specSlugs + {d.specs[i].slug};
    }
    assert d.specs[..|d.specs|] == d.specs;
    slugs := specSlugs;
    for i := 0 to |d.decisions|
      invariant slugs == specSlugs + set x | x in d.decisions[..i] :: x.slug
    {
      assert d.decisions[..i + 1] == d.decisions[..i] + [d.decisions[i]];
      slugs := slugs + {d.decisions[i].slug};
    }
    assert d.decisions[..|d.decisions|] == d.decisions;
  }

  /** Both ends of every edge, edge by edge. */
  method CheckEdges(d: Data, slugs: set<string>) returns (errs: seq<Ref>)
    requires slugs == NodeSlugs(d)
    ensures Sorted(errs) && forall r :: r in errs <==> Broken(d, r) && Rank(r.list) == 0
  {
    errs := [];
    for i := 0 to |d.edges|
      invariant Sorted(errs)
      invariant forall r :: r in errs <==> Broken(d, r) && Rank(r.list) == 0 && r.i < i
    {
      if d.edges[i].fromSlug !in slugs {
        SortedSnoc(errs, Ref(EdgeFrom, i));
        errs := errs + [Ref(EdgeFrom, i)];
      }
      if d.edges[i].toSlug !in slugs {
        SortedSnoc(errs, Ref(EdgeTo, i));
        errs := errs + [Ref(EdgeTo, i)];
      }
    }
  }

  /** The integrity errors are exactly the broken references, each once and in the
      order of the document. */
  method ValidateRefs(d: Data) returns (errs: seq<Ref>)
    ensures Sorted(errs) && forall r :: r in errs <==> Broken(d, r)
    ensures errs == [] <==> RefsHold(d)
  {
    var specSlugs, slugs := CollectSlugs(d);
    errs := CheckEdges(d, slugs);
    errs := CheckList(d, SliceParent, specSlugs, errs);
    errs := CheckList(d, FindingSpec, specSlugs, errs);
    errs := CheckList(d, ChangeLogSpec, specSlugs, errs);
    errs := CheckList(d, ConversationSpec, specSlugs, errs);
    errs := CheckList(d, MappingSpec, specSlugs, errs);
    errs := CheckList(d, EventSpec, specSlugs, errs);
    assert errs != [] ==> errs[0] in errs;
  }

  // ---------------------------------------------------------------- grouping of findings

  type GroupKey = (string, string)

  function KeyOf(f: Finding): GroupKey {
    (f.specSlug, f.passType)
  }

  function GroupKeys(findings: seq<Finding>): set<GroupKey> {
    set f | f in findings :: KeyOf(f)
  }

  /** The findings whose key is in a set, in input order. */
  function Members(findings: seq<Finding>, keys: set<GroupKey>): seq<Finding> {
    if findings == [] then []
    else
      Members(findings[..|findings| - 1], keys)
      + if KeyOf(findings[|findings| - 1]) in keys then [findings[|findings| - 1]] else []
  }

  function Inputs(findings: seq<Finding>): seq<FindingInput> {
    seq(|findings|, i requires 0 <= i < |findings| => findings[i].input)
  }

  function GroupInputs(findings: seq<Finding>, key: GroupKey): seq<FindingInput> {
    Inputs(Members(findings, {key}))
  }

  /** order lists the keys, each once. */
  predicate Enumerates(order: seq<GroupKey>, keys: set<GroupKey>) {
    if order == [] then keys == {}
    else
      var last := order[|order| - 1];
      last in keys && Enumerates(order[..|order| - 1], keys - {last})
  }

  /** All groups one after the other. */
  function Regrouped(findings: seq<Finding>, order: seq<GroupKey>): seq<Finding> {
    if order == [] then [] else Regrouped(findings, order[..|order| - 1]) + Members(findings, {order[|order| - 1]})
  }

  lemma {:induction false} MembersSplit(findings: seq<Finding>, keys: set<GroupKey>, key: GroupKey)
    requires key !in keys
    ensures multiset(Members(findings, keys + {key})) == multiset(Members(findings, keys)) + multiset(Members(findings, {key}))
  {
    if findings != [] {
      MembersSplit(findings[..|findings| - 1], keys, key);
    }
  }

  lemma {:induction false} AllMembers(findings: seq<Finding>, keys: set<GroupKey>)
    requires forall f :: f in findings ==> KeyOf(f) in keys
    ensures Members(findings, keys) == findings
  {
    if findings != [] {
      var before, last := findings[..|findings| - 1], findings[|findings| - 1];
      assert findings == before + [last];
      AllMembers(before, keys);
    }
  }

  lemma {:induction false} RegroupedMembers(findings: seq<Finding>, order: seq<GroupKey>, keys: set<GroupKey>)
    requires Enumerates(order, keys)
    ensures multiset(Regrouped(findings, order)) == multiset(Members(findings, keys))
  {
    if order == [] {
      NoMembers(findings);
    } else {
      var before, key := order[..|order| - 1], order[|order| - 1];
      RegroupedMembers(findings, before, keys - {key});
      MembersSplit(findings, keys - {key}, key);
      assert keys - {key} + {key} == keys;
    }
  }

  lemma {:induction false} NoMembers(findings: seq<Finding>)
    ensures Members(findings, {}) == []
  {
    if findings != [] {
      NoMembers(findings[..|findings| - 1]);
    }
  }

  /** Grouping moves findings but neither loses nor repeats one, in whatever order
      the groups are visited. */
  lemma GroupingConserves(findings: seq<Finding>, order: seq<GroupKey>)
    requires Enumerates(order, GroupKeys(findings))
    ensures multiset(Regrouped(findings, order)) == multiset(findings)
    ensures |Regrouped(findings, order)| == |findings|
  {
    RegroupedMembers(findings, order, GroupKeys(findings));
    AllMembers(findings, GroupKeys(findings));
    assert |multiset(Regrouped(findings, order))| == |multiset(findings)|;
  }
}
