/** Engine.Verify (internal/export/engine.go:664-830): two documents compared by
    the sets of their entity keys. */
module ExportVerify {
  import opened Wrappers
  import opened Text
  import opened Document
  import opened EntityKeys

  datatype Diff = Diff(entityType: string, matched: nat, missing: nat, extra: nat)

  ghost function Keys<T>(items: seq<T>, key: T -> string): set<string> {
    set i | 0 <= i < |items| :: key(items[i])
  }

  ghost function DiffOf(entityType: string, provided: set<string>, current: set<string>): Diff {
    Diff(entityType, |provided * current|, |provided - current|, |current - provided|)
  }

  method CollectKeys<T>(items: seq<T>, key: T -> string) returns (keys: set<string>)
    ensures keys == Keys(items, key)
  {
    keys := {};
    for i := 0 to |items|
      invariant keys == set k | 0 <= k < i :: key(items[k])
    {
      keys := keys + {key(items[i])};
    }
  }

  /** Counts keys of one set by whether the other has them. */
  method CountKeys(keys: set<string>, other: set<string>) returns (inBoth: nat, onlyHere: nat)
    ensures inBoth == |keys * other| && onlyHere == |keys - other|
  {
    inBoth, onlyHere := 0, 0;
    var left := keys;
    ghost var seen := {};
    while left != {}
      invariant seen + left == keys && seen !! left
      invariant inBoth == |seen * other| && onlyHere == |seen - other|
      decreases left
    {
      var k :| k in left;
      CountOne(seen, other, k);
      if k in other {
        inBoth := inBoth + 1;
      } else {
        onlyHere := onlyHere + 1;
      }
      left, seen := left - {k}, seen + {k};
    }
    assert seen == keys;
  }

  lemma CountOne(seen: set<string>, other: set<string>, k: string)
    requires k !in seen
    ensures |(seen + {k}) * other| == |seen * other| + if k in other then 1 else 0
    ensures |(seen + {k}) - other| == |seen - other| + if k in other then 0 else 1
  {
    if k in other {
      assert (seen + {k}) * other == seen * other + {k} && (seen + {k}) - other == seen - other;
    } else {
      assert (seen + {k}) * other == seen * other && (seen + {k}) - other == seen - other + {k};
    }
  }

  method CompareBySlug<T>(entityType: string, provided: seq<T>, current: seq<T>, key: T -> string) returns (d: Diff)
    ensures d == DiffOf(entityType, Keys(provided, key), Keys(current, key))
  {
    var provMap := CollectKeys(provided, key);
    var curMap := CollectKeys(current, key);
    var matched, missing := CountKeys(provMap, curMap);
    var _, extra := CountKeys(curMap, provMap);
    assert provMap * curMap == curMap * provMap;
    d := Diff(entityType, matched, missing, extra);
  }

  /** Matched keys are shared; with the missing ones they are all provided keys, and
      with the extra ones all current keys; nothing missing or extra means equality. */
  lemma DiffCounts(entityType: string, provided: set<string>, current: set<string>)
    ensures var d := DiffOf(entityType, provided, current);
            && d.matched + d.missing == |provided| && d.matched + d.extra == |current|
            && (d.missing == 0 && d.extra == 0 <==> provided == current)
  {
    assert provided == provided * current + (provided - current);
    assert current == provided * current + (current - provided);
    if |provided - current| == 0 && |current - provided| == 0 {
      assert provided - current == {} && current - provided == {};
      assert provided <= current && current <= provided;
    }
  }

  // ---------------------------------------------------------------- the nine kinds

  datatype Entity = Specs | Decisions | Slices | Edges | Findings | ChangeLogs | Conversations | SyncMappings | ExecutionEvents

  /** The kinds in the order of the report. */
  const ENTITIES := [Specs, Decisions, Slices, Edges, Findings, ChangeLogs, Conversations, SyncMappings, ExecutionEvents]

  function Name(k: Entity): string {
    match k
    case Specs => "specs"
    case Decisions => "decisions"
    case Slices => "slices"
    case Edges => "edges"
    case Findings => "findings"
    case ChangeLogs => "changelogs"
    case Conversations => "conversations"
    case SyncMappings => "sync_mappings"
    case ExecutionEvents => "execution_events"
  }

  ghost function KeySet(d: Data, k: Entity): set<string> {
    match k
    case Specs => Keys(d.specs, SpecKey)
    case Decisions => Keys(d.decisions, DecisionKey)
    case Slices => Keys(d.slices, SliceKey)
    case Edges => Keys(d.edges, EdgeKey)
    case Findings => Keys(d.findings, FindingKey)
    case ChangeLogs => Keys(d.changeLogs, ChangeLogKey)
    case Conversations => Keys(d.conversations, ConversationKey)
    case SyncMappings => Keys(d.mappings, MappingKey)
    case ExecutionEvents => Keys(d.events, EventKey)
  }

  method Compare(provided: Data, current: Data, k: Entity) returns (d: Diff)
    ensures d == DiffOf(Name(k), KeySet(provided, k), KeySet(current, k))
  {
    match k
    case Specs => d := CompareBySlug("specs", provided.specs, current.specs, SpecKey);
    case Decisions => d := CompareBySlug("decisions", provided.decisions, current.decisions, DecisionKey);
    case Slices => d := CompareBySlug("slices", provided.slices, current.slices, SliceKey);
    case Edges => d := CompareBySlug("edges", provided.edges, current.edges, EdgeKey);
    case Findings => d := CompareBySlug("findings", provided.findings, current.findings, FindingKey);
    case ChangeLogs => d := CompareBySlug("changelogs", provided.changeLogs, current.changeLogs, ChangeLogKey);
    case Conversations => d := CompareBySlug("conversations", provided.conversations, current.conversations, ConversationKey);
    case SyncMappings => d := CompareBySlug("sync_mappings", provided.mappings, current.mappings, MappingKey);
    case ExecutionEvents => d := CompareBySlug("execution_events", provided.events, current.events, EventKey);
  }

  /** The report is OK exactly when all nine key sets are equal, and each line counts
      the shared, the missing and the extra keys of its kind. */
  method Verify(provided: Data, current: Data) returns (diffs: seq<Diff>, ok: bool)
    ensures |diffs| == |ENTITIES|
    ensures forall i :: 0 <= i < |diffs| ==>
              diffs[i] == DiffOf(Name(ENTITIES[i]), KeySet(provided, ENTITIES[i]), KeySet(current, ENTITIES[i]))
    ensures ok <==> forall k :: KeySet(provided, k) == KeySet(current, k)
    ensures ok ==> SameSlugs(provided, current)
  {
    diffs, ok := [], true;
    for i := 0 to |ENTITIES|
      invariant |diffs| == i
      invariant forall j :: 0 <= j < i ==>
                  diffs[j] == DiffOf(Name(ENTITIES[j]), KeySet(provided, ENTITIES[j]), KeySet(current, ENTITIES[j]))
      invariant ok <==> forall j :: 0 <= j < i ==> KeySet(provided, ENTITIES[j]) == KeySet(current, ENTITIES[j])
    {
      var d := Compare(provided, current, ENTITIES[i]);
      DiffCounts(Name(ENTITIES[i]), KeySet(provided, ENTITIES[i]), KeySet(current, ENTITIES[i]));
      diffs := diffs + [d];
      if d.missing > 0 || d.extra > 0 {
        ok := false;
      }
    }
    if ok {
      forall k ensures KeySet(provided, k) == KeySet(current, k) {
        AllListed(k);
        var j :| 0 <= j < |ENTITIES| && ENTITIES[j] == k;
      }
      SlugKeys(provided, current);
    }
  }

  /** Specs, decisions and slices have the same slugs. */
  ghost predicate SameSlugs(a: Data, b: Data) {
    && (set s | s in a.specs :: s.slug) == (set s | s in b.specs :: s.slug)
    && (set x | x in a.decisions :: x.slug) == (set x | x in b.decisions :: x.slug)
    && (set s | s in a.slices :: s.slug) == (set s | s in b.slices :: s.slug)
  }

  lemma SlugsAreKeys(d: Data)
    ensures KeySet(d, Specs) == (set s | s in d.specs :: s.slug)
    ensures KeySet(d, Decisions) == (set x | x in d.decisions :: x.slug)
    ensures KeySet(d, Slices) == (set s | s in d.slices :: s.slug)
  {
    forall i | 0 <= i < |d.specs| ensures SpecKey(d.specs[i]) == d.specs[i].slug && d.specs[i] in d.specs {
    }
    forall i | 0 <= i < |d.decisions| ensures DecisionKey(d.decisions[i]) == d.decisions[i].slug && d.decisions[i] in d.decisions {
    }
    forall i | 0 <= i < |d.slices| ensures SliceKey(d.slices[i]) == d.slices[i].slug && d.slices[i] in d.slices {
    }
  }

  lemma SlugKeys(a: Data, b: Data)
    ensures SameSlugs(a, b) <==> forall k :: k in {Specs, Decisions, Slices} ==> KeySet(a, k) == KeySet(b, k)
  {
    SlugsAreKeys(a);
    SlugsAreKeys(b);
  }

  lemma AllListed(k: Entity)
    ensures k in ENTITIES
  {
    var i := match k
      case Specs => 0
      case Decisions => 1
      case Slices => 2
      case Edges => 3
      case Findings => 4
      case ChangeLogs => 5
      case Conversations => 6
      case SyncMappings => 7
      case ExecutionEvents => 8;
    assert ENTITIES[i] == k;
  }

  // ---------------------------------------------------------------- what edge keys tell apart

  ghost predicate SameEdges(a: seq<Edge>, b: seq<Edge>) {
    forall e :: e in a <==> e in b
  }

  ghost predicate BarFree(e: Edge) {
    !Contains(e.fromSlug, '|') && !Contains(e.toSlug, '|')
  }

  lemma FirstBar(a: string, rest: string, b: string, more: string)
    requires !Contains(a, '|') && !Contains(b, '|') && a + "|" + rest == b + "|" + more
    ensures a == b && rest == more
  {
    var s := a + "|" + rest;
    assert s[|a|] == '|' && s[|b|] == '|';
    assert forall i :: 0 <= i < |a| ==> s[i] == a[i];
    assert forall i :: 0 <= i < |b| ==> s[i] == b[i];
    assert |a| == |b|;
    assert a == s[..|a|] && b == s[..|b|];
    assert rest == s[|a| + 1..] && more == s[|b| + 1..];
  }

  /** Of two edges whose slugs hold no bar, equal keys mean the same edge, whatever their
      types hold. */
  lemma EdgeKeyInjective(e: Edge, f: Edge)
    requires BarFree(e) && BarFree(f)
    ensures EdgeKey(e) == EdgeKey(f) <==> e == f
  {
    if EdgeKey(e) == EdgeKey(f) {
      assert EdgeKey(e) == e.fromSlug + "|" + (e.toSlug + "|" + e.edgeType);
      assert EdgeKey(f) == f.fromSlug + "|" + (f.toSlug + "|" + f.edgeType);
      FirstBar(e.fromSlug, e.toSlug + "|" + e.edgeType, f.fromSlug, f.toSlug + "|" + f.edgeType);
      FirstBar(e.toSlug, e.edgeType, f.toSlug, f.edgeType);
    }
  }

  /** If equal keys mean equal edges between the two lists, equal key sets mean that both
      have the same edges. */
  lemma KeysCover(a: seq<Edge>, b: seq<Edge>)
    requires forall e, f :: e in a && f in b && EdgeKey(e) == EdgeKey(f) ==> e == f
    requires Keys(a, EdgeKey) <= Keys(b, EdgeKey)
    ensures forall e :: e in a ==> e in b
  {
    forall e | e in a ensures e in b {
      var i :| 0 <= i < |a| && a[i] == e;
      assert EdgeKey(a[i]) in Keys(a, EdgeKey);
      var j :| 0 <= j < |b| && EdgeKey(b[j]) == EdgeKey(e);
      assert b[j] in b;
    }
  }

  lemma KeysFollow(a: seq<Edge>, b: seq<Edge>)
    requires forall e :: e in a ==> e in b
    ensures Keys(a, EdgeKey) <= Keys(b, EdgeKey)
  {
    forall i | 0 <= i < |a| ensures EdgeKey(a[i]) in Keys(b, EdgeKey) {
      assert a[i] in b;
      var j :| 0 <= j < |b| && b[j] == a[i];
      assert EdgeKey(b[j]) in Keys(b, EdgeKey);
    }
  }

  /** Among slugs without a bar the edge lines agree exactly when both documents have the
      same edges. */
  lemma EdgeKeysTellEdges(a: seq<Edge>, b: seq<Edge>)
    requires forall e :: e in a || e in b ==> BarFree(e)
    ensures Keys(a, EdgeKey) == Keys(b, EdgeKey) <==> SameEdges(a, b)
  {
    forall e, f | (e in a || e in b) && (f in a || f in b) && EdgeKey(e) == EdgeKey(f) ensures e == f {
      EdgeKeyInjective(e, f);
    }
    if Keys(a, EdgeKey) == Keys(b, EdgeKey) {
      KeysCover(a, b);
      KeysCover(b, a);
    } else if SameEdges(a, b) {
      KeysFollow(a, b);
      KeysFollow(b, a);
    }
  }

  /** Another document with one edge exchanged for one of the same key. */
  lemma Exchange(a: seq<Edge>, e: Edge, f: Edge) returns (b: seq<Edge>)
    requires e in a && f != e && EdgeKey(f) == EdgeKey(e)
    ensures Keys(b, EdgeKey) == Keys(a, EdgeKey) && !SameEdges(a, b)
  {
    b := seq(|a|, i requires 0 <= i < |a| => if a[i] == e then f else a[i]);
    assert forall i :: 0 <= i < |a| ==> EdgeKey(b[i]) == EdgeKey(a[i]);
    assert e !in b;
  }

  /** Exactly which documents can be compared with any other one by their edge keys: those
      whose edges hold no bar in any field. */
  lemma EdgeKeysTellExactly(a: seq<Edge>)
    ensures (forall b :: Keys(b, EdgeKey) == Keys(a, EdgeKey) ==> SameEdges(a, b))
            <==> (forall e :: e in a ==> Clean('|', e.fromSlug, e.toSlug, e.edgeType))
  {
    if e :| e in a && !Clean('|', e.fromSlug, e.toSlug, e.edgeType) {
      var f := BarsCollide(e);
      var b := Exchange(a, e, f);
    } else {
      forall b | Keys(b, EdgeKey) == Keys(a, EdgeKey) ensures SameEdges(a, b) {
        forall e, f | e in a && f in b && EdgeKey(e) == EdgeKey(f) ensures e == f {
          EdgeKeyExactly(e);
        }
        KeysCover(a, b);
        KeysCover(b, a);
      }
    }
  }
}
