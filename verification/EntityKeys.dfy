/** The keys under which two documents are compared, and exactly when a key tells its
    entity apart (internal/export/engine.go:673-744). */
module EntityKeys {
  import opened Text
  import opened Document

  /** Fields with a separator between them. */
  function Two(sep: char, a: string, b: string): string {
    a + [sep] + b
  }

  function Three(sep: char, a: string, b: string, c: string): string {
    a + [sep] + b + [sep] + c
  }

  function VersionText(v: Int32): string { "v" + SignedDecimal(v) }

  function EventTypeName(t: EventType): string {
    match t
    case ProgressEvent => "progress"
    case BlockerEvent => "blocker"
    case CompletionEvent => "completion"
    case OtherEvent => "unknown"
  }

  function SpecKey(s: Spec): string { s.slug }
  function DecisionKey(x: Decision): string { x.slug }
  function SliceKey(s: Slice): string { s.slug }
  function EdgeKey(e: Edge): string { Three('|', e.fromSlug, e.toSlug, e.edgeType) }
  function FindingKey(f: Finding): string { Three('/', f.specSlug, f.passType, f.input.summary) }
  function ChangeLogKey(c: ChangeLog): string { Three('/', c.specSlug, VersionText(c.version), c.stage) }
  function ConversationKey(c: Conversation): string { Three('/', c.specSlug, c.stage, VersionText(c.version)) }
  function MappingKey(m: SyncMapping): string { Three('/', m.specSlug, m.adapter, m.externalId) }
  function EventKey(e: Event): string { Three('/', Head(e), EventTypeName(e.eventType), e.message) }

  function Head(e: Event): string { Two('/', e.specSlug, e.agent) }

  // ---------------------------------------------------------------- three free fields

  /** What stands where in a key. */
  lemma KeyChar(sep: char, a: string, b: string, c: string, i: nat)
    requires i < |Three(sep, a, b, c)|
    ensures Three(sep, a, b, c)[i] ==
            if i < |a| then a[i]
            else if i == |a| then sep
            else if i < |a| + 1 + |b| then b[i - |a| - 1]
            else if i == |a| + 1 + |b| then sep
            else c[i - |a| - |b| - 2]
  {
  }

  /** Where the separators of a clean key are. */
  lemma SeparatorsOf(sep: char, a: string, b: string, c: string, i: nat)
    requires !Contains(a, sep) && !Contains(b, sep) && !Contains(c, sep)
    requires i < |Three(sep, a, b, c)| && Three(sep, a, b, c)[i] == sep
    ensures i == |a| || i == |a| + 1 + |b|
  {
    KeyChar(sep, a, b, c, i);
  }

  /** Where the fields of a key are. */
  lemma FieldsOf(sep: char, a: string, b: string, c: string)
    ensures var k := Three(sep, a, b, c);
            && |k| == |a| + |b| + |c| + 2 && k[|a|] == sep && k[|a| + 1 + |b|] == sep
            && k[..|a|] == a && k[|a| + 1..|a| + 1 + |b|] == b && k[|a| + |b| + 2..] == c
  {
  }

  lemma CleanFieldsComeBack(sep: char, a: string, b: string, c: string, x: string, y: string, z: string)
    requires !Contains(a, sep) && !Contains(b, sep) && !Contains(c, sep)
    requires Three(sep, x, y, z) == Three(sep, a, b, c)
    ensures x == a && y == b && z == c
  {
    FieldsOf(sep, a, b, c);
    FieldsOf(sep, x, y, z);
    SeparatorsOf(sep, a, b, c, |x|);
    SeparatorsOf(sep, a, b, c, |x| + 1 + |y|);
  }

  /** The two sides of some separator. */
  lemma CutAt(sep: char, s: string) returns (x: string, y: string)
    requires Contains(s, sep)
    ensures s == x + [sep] + y
  {
    var i :| 0 <= i < |s| && s[i] == sep;
    x, y := s[..i], s[i + 1..];
  }

  /** A separator inside a field lets the boundary move; the last field stays when it is
      clean. */
  lemma BoundaryMoves(sep: char, a: string, b: string, c: string) returns (x: string, y: string, z: string)
    requires Contains(a, sep) || Contains(b, sep) || Contains(c, sep)
    ensures Three(sep, x, y, z) == Three(sep, a, b, c) && (x != a || y != b)
    ensures !Contains(c, sep) ==> z == c
  {
    if Contains(a, sep) {
      var p, q := CutAt(sep, a);
      x, y, z := p, q + [sep] + b, c;
      assert p + [sep] + (q + [sep] + b) == p + [sep] + q + [sep] + b;
    } else if Contains(b, sep) {
      var p, q := CutAt(sep, b);
      x, y, z := a + [sep] + p, q, c;
      assert a + [sep] + p + [sep] + q == a + [sep] + (p + [sep] + q);
    } else {
      var p, q := CutAt(sep, c);
      x, y, z := a, b + [sep] + p, q;
      assert a + [sep] + (b + [sep] + p) + [sep] + q == a + [sep] + b + [sep] + (p + [sep] + q);
    }
  }

  predicate Clean(sep: char, a: string, b: string, c: string) {
    !Contains(a, sep) && !Contains(b, sep) && !Contains(c, sep)
  }

  /** An edge key identifies its edge exactly when none of the three fields holds a bar. */
  lemma EdgeKeyExactly(e: Edge)
    ensures (forall f: Edge :: EdgeKey(f) == EdgeKey(e) ==> f == e) <==> Clean('|', e.fromSlug, e.toSlug, e.edgeType)
  {
    if Clean('|', e.fromSlug, e.toSlug, e.edgeType) {
      forall f: Edge | EdgeKey(f) == EdgeKey(e) ensures f == e {
        CleanFieldsComeBack('|', e.fromSlug, e.toSlug, e.edgeType, f.fromSlug, f.toSlug, f.edgeType);
      }
    } else {
      var f := BarsCollide(e);
    }
  }

  /** Every edge with a bar in a field shares its key with another edge. */
  lemma BarsCollide(e: Edge) returns (f: Edge)
    requires !Clean('|', e.fromSlug, e.toSlug, e.edgeType)
    ensures f != e && EdgeKey(f) == EdgeKey(e)
  {
    var x, y, z := BoundaryMoves('|', e.fromSlug, e.toSlug, e.edgeType);
    f := Edge(x, y, z);
  }

  /** A finding key identifies spec, pass and summary exactly when none holds a slash. */
  lemma FindingKeyExactly(f: Finding)
    ensures (forall g: Finding :: FindingKey(g) == FindingKey(f) ==>
               g.specSlug == f.specSlug && g.passType == f.passType && g.input.summary == f.input.summary)
            <==> Clean('/', f.specSlug, f.passType, f.input.summary)
  {
    if Clean('/', f.specSlug, f.passType, f.input.summary) {
      forall g: Finding | FindingKey(g) == FindingKey(f)
        ensures g.specSlug == f.specSlug && g.passType == f.passType && g.input.summary == f.input.summary
      {
        CleanFieldsComeBack('/', f.specSlug, f.passType, f.input.summary, g.specSlug, g.passType, g.input.summary);
      }
    } else {
      var x, y, z := BoundaryMoves('/', f.specSlug, f.passType, f.input.summary);
      var g := Finding(x, y, f.input.(summary := z));
      assert FindingKey(g) == FindingKey(f);
    }
  }

  lemma MappingKeyExactly(m: SyncMapping)
    ensures (forall n: SyncMapping :: MappingKey(n) == MappingKey(m) ==> n == m) <==> Clean('/', m.specSlug, m.adapter, m.externalId)
  {
    if Clean('/', m.specSlug, m.adapter, m.externalId) {
      forall n: SyncMapping | MappingKey(n) == MappingKey(m) ensures n == m {
        CleanFieldsComeBack('/', m.specSlug, m.adapter, m.externalId, n.specSlug, n.adapter, n.externalId);
      }
    } else {
      var x, y, z := BoundaryMoves('/', m.specSlug, m.adapter, m.externalId);
      assert MappingKey(SyncMapping(x, y, z)) == MappingKey(m);
    }
  }

  // ---------------------------------------------------------------- keys with a version

  lemma VersionTextClean(v: Int32)
    ensures !Contains(VersionText(v), '/')
  {
    var digits := Decimal(Magnitude(v));
    assert forall i :: 0 <= i < |digits| ==> IsDigit(digits[i]);
  }

  lemma VersionTextInjective(v: Int32, w: Int32)
    requires VersionText(v) == VersionText(w)
    ensures v == w
  {
    assert SignedDecimal(v) == VersionText(v)[1..] && SignedDecimal(w) == VersionText(w)[1..];
    SignedDecimalInjective(v, w);
  }

  /** A conversation key identifies its conversation exactly when slug and stage hold no
      slash. */
  lemma ConversationKeyExactly(c: Conversation)
    ensures (forall d: Conversation :: ConversationKey(d) == ConversationKey(c) ==> d == c)
            <==> !Contains(c.specSlug, '/') && !Contains(c.stage, '/')
  {
    VersionTextClean(c.version);
    if !Contains(c.specSlug, '/') && !Contains(c.stage, '/') {
      forall d: Conversation | ConversationKey(d) == ConversationKey(c) ensures d == c {
        CleanFieldsComeBack('/', c.specSlug, c.stage, VersionText(c.version), d.specSlug, d.stage, VersionText(d.version));
        VersionTextInjective(d.version, c.version);
      }
    } else {
      var x, y, z := BoundaryMoves('/', c.specSlug, c.stage, VersionText(c.version));
      assert ConversationKey(Conversation(x, y, c.version)) == ConversationKey(c);
    }
  }

  // ---------------------------------------------------------------- a token between free fields

  /** s holds t between two slashes. */
  ghost predicate Within(s: string, t: string) {
    exists x, y :: s == Three('/', x, t, y)
  }

  lemma Glue(p: string, u: string, y: string)
    ensures p + (['/'] + u + ['/'] + y) == Three('/', p, u, y)
    ensures Three('/', p, u, y) == (p + ['/'] + u) + (['/'] + y)
  {
  }

  /** The same key with a later token: the token lies within the end. */
  lemma LaterToken(a: string, t: string, b: string, x: string, u: string, y: string)
    requires Three('/', x, u, y) == Three('/', a, t, b) && !Contains(t, '/') && |a| < |x|
    ensures Within(['/'] + b, u)
  {
    var k, n := Three('/', a, t, b), |a| + 1 + |t|;
    FieldsOf('/', x, u, y);
    KeyChar('/', a, t, b, |x|);
    Glue(a, t, b);
    Glue(x, u, y);
    assert |a + ['/'] + t| == n && k[n..] == ['/'] + b;
    assert k[|x|..] == ['/'] + u + ['/'] + y;
    assert k[n..] == k[n..|x|] + k[|x|..];
    Glue(k[n..|x|], u, y);
  }

  /** The same key with an earlier token: the token lies within the front. */
  lemma EarlierToken(a: string, t: string, b: string, x: string, u: string, y: string)
    requires Three('/', x, u, y) == Three('/', a, t, b) && !Contains(u, '/') && |x| < |a|
    ensures Within(a + ['/'], u)
  {
    var k, n := Three('/', a, t, b), |x| + 1 + |u|;
    FieldsOf('/', a, t, b);
    KeyChar('/', x, u, y, |a|);
    var tail := k[n + 1..|a| + 1];
    assert k[..|a| + 1] == a + ['/'];
    assert k[..n + 1] == x + ['/'] + u + ['/'];
    assert k[..|a| + 1] == k[..n + 1] + tail;
    assert a + ['/'] == Three('/', x, u, tail);
  }

  /** The same key with the token in the same place. */
  lemma SameToken(a: string, t: string, b: string, x: string, u: string, y: string)
    requires Three('/', x, u, y) == Three('/', a, t, b) && !Contains(t, '/') && !Contains(u, '/') && |x| == |a|
    ensures x == a && u == t && y == b
  {
    FieldsOf('/', a, t, b);
    FieldsOf('/', x, u, y);
    KeyChar('/', a, t, b, |x| + 1 + |u|);
    KeyChar('/', x, u, y, |a| + 1 + |t|);
  }

  /** A token within the end can be taken for the token. */
  lemma TokenInEnd(a: string, t: string, b: string, u: string) returns (x: string, y: string)
    requires Within(['/'] + b, u)
    ensures Three('/', Two('/', a, t) + x, u, y) == Three('/', a, t, b)
  {
    x, y :| ['/'] + b == Three('/', x, u, y);
    Glue(a, t, b);
    assert Two('/', a, t) + Three('/', x, u, y) == Three('/', Two('/', a, t) + x, u, y);
  }

  /** So can one within the front. */
  lemma TokenInFront(a: string, t: string, b: string, u: string) returns (x: string, y: string)
    requires Within(a + ['/'], u)
    ensures Three('/', x, u, y) == Three('/', a, t, b) && |x| < |a|
  {
    var rest;
    x, rest :| a + ['/'] == Three('/', x, u, rest);
    y := rest + Two('/', t, b);
    assert |a + ['/']| == |x| + |u| + |rest| + 2;
    assert Three('/', a, t, b) == (a + ['/']) + Two('/', t, b);
    assert Three('/', x, u, rest) + Two('/', t, b) == Three('/', x, u, y);
  }

  ghost predicate VersionWithin(s: string) {
    exists v: Int32 :: Within(s, VersionText(v))
  }

  /** A changelog key identifies its entry exactly when nothing like "/v1/" can be read
      in the slug with a slash after it, nor in the stage with a slash before it. */
  lemma ChangeLogKeyExactly(c: ChangeLog)
    ensures (forall d: ChangeLog :: ChangeLogKey(d) == ChangeLogKey(c) ==> d == c)
            <==> !VersionWithin(c.specSlug + ['/']) && !VersionWithin(['/'] + c.stage)
  {
    if !VersionWithin(c.specSlug + ['/']) && !VersionWithin(['/'] + c.stage) {
      forall d: ChangeLog | ChangeLogKey(d) == ChangeLogKey(c) ensures d == c {
        ChangeLogComesBack(c, d);
      }
    } else {
      var d := ChangeLogsCollide(c);
    }
  }

  lemma ChangeLogsCollide(c: ChangeLog) returns (d: ChangeLog)
    requires VersionWithin(c.specSlug + ['/']) || VersionWithin(['/'] + c.stage)
    ensures d != c && ChangeLogKey(d) == ChangeLogKey(c)
  {
    var t := VersionText(c.version);
    if VersionWithin(c.specSlug + ['/']) {
      var v: Int32 :| Within(c.specSlug + ['/'], VersionText(v));
      var x, y := TokenInFront(c.specSlug, t, c.stage, VersionText(v));
      d := ChangeLog(x, v, y);
    } else {
      var v: Int32 :| Within(['/'] + c.stage, VersionText(v));
      var x, y := TokenInEnd(c.specSlug, t, c.stage, VersionText(v));
      d := ChangeLog(Two('/', c.specSlug, t) + x, v, y);
      assert |d.specSlug| > |c.specSlug|;
    }
  }

  lemma ChangeLogComesBack(c: ChangeLog, d: ChangeLog)
    requires !VersionWithin(c.specSlug + ['/']) && !VersionWithin(['/'] + c.stage) && ChangeLogKey(d) == ChangeLogKey(c)
    ensures d == c
  {
    var t, u := VersionText(c.version), VersionText(d.version);
    VersionTextClean(c.version);
    VersionTextClean(d.version);
    if |d.specSlug| > |c.specSlug| {
      LaterToken(c.specSlug, t, c.stage, d.specSlug, u, d.stage);
    } else if |d.specSlug| < |c.specSlug| {
      EarlierToken(c.specSlug, t, c.stage, d.specSlug, u, d.stage);
    } else {
      SameToken(c.specSlug, t, c.stage, d.specSlug, u, d.stage);
      VersionTextInjective(c.version, d.version);
    }
  }

  // ---------------------------------------------------------------- keys with an event type

  lemma EventTypeNames(t: EventType, u: EventType)
    ensures !Contains(EventTypeName(t), '/')
    ensures EventTypeName(t) == EventTypeName(u) ==> t == u
  {
    var names := ["progress", "blocker", "completion", "unknown"];
    assert names[0][0] == 'p' && names[1][0] == 'b' && names[2][0] == 'c' && names[3][0] == 'u';
  }

  ghost predicate TypeWithin(s: string) {
    exists t: EventType :: Within(s, EventTypeName(t))
  }

  ghost predicate EventClean(e: Event) {
    !Contains(e.specSlug, '/') && !Contains(e.agent, '/') && !TypeWithin(['/'] + e.message)
  }

  /** An event key identifies its event exactly when slug and agent hold no slash and no
      type name can be read between slashes in the message with a slash before it. */
  lemma EventKeyExactly(e: Event)
    ensures (forall f: Event :: EventKey(f) == EventKey(e) ==> f == e) <==> EventClean(e)
  {
    if EventClean(e) {
      forall f: Event | EventKey(f) == EventKey(e) ensures f == e {
        EventComesBack(e, f);
      }
    } else {
      var f := EventsCollide(e);
    }
  }

  lemma HeadChar(e: Event, i: nat)
    requires i < |Head(e)|
    ensures Head(e)[i] ==
            if i < |e.specSlug| then e.specSlug[i] else if i == |e.specSlug| then '/' else e.agent[i - |e.specSlug| - 1]
  {
  }

  /** The only slash of a clean head. */
  lemma HeadSlash(e: Event, i: nat)
    requires !Contains(e.specSlug, '/') && !Contains(e.agent, '/')
    requires i < |Head(e)| && Head(e)[i] == '/'
    ensures i == |e.specSlug|
  {
    HeadChar(e, i);
  }

  /** Equal clean heads have equal fields. */
  lemma HeadComesBack(e: Event, f: Event)
    requires !Contains(e.specSlug, '/') && !Contains(e.agent, '/') && Head(f) == Head(e)
    ensures f.specSlug == e.specSlug && f.agent == e.agent
  {
    assert Head(f)[|f.specSlug|] == '/';
    HeadSlash(e, |f.specSlug|);
    assert f.specSlug == Head(f)[..|f.specSlug|] && e.specSlug == Head(e)[..|e.specSlug|];
    assert f.agent == Head(f)[|f.specSlug| + 1..] && e.agent == Head(e)[|e.specSlug| + 1..];
  }

  /** A shorter head under the same key ends at a second slash of the longer one. */
  lemma ShorterHead(e: Event, f: Event)
    requires EventKey(f) == EventKey(e) && |Head(f)| < |Head(e)|
    ensures Contains(e.specSlug, '/') || Contains(e.agent, '/')
  {
    var k, i, j := EventKey(e), |f.specSlug|, |Head(f)|;
    FieldsOf('/', Head(e), EventTypeName(e.eventType), e.message);
    FieldsOf('/', Head(f), EventTypeName(f.eventType), f.message);
    HeadChar(f, i);
    assert Head(e)[j] == k[j] && Head(e)[i] == k[i] == Head(f)[i];
    HeadChar(e, i);
    HeadChar(e, j);
  }

  lemma EventComesBack(e: Event, f: Event)
    requires EventClean(e) && EventKey(f) == EventKey(e)
    ensures f == e
  {
    var t, u := EventTypeName(e.eventType), EventTypeName(f.eventType);
    EventTypeNames(e.eventType, f.eventType);
    EventTypeNames(f.eventType, e.eventType);
    if |Head(f)| < |Head(e)| {
      ShorterHead(e, f);
    } else if |Head(f)| > |Head(e)| {
      LaterToken(Head(e), t, e.message, Head(f), u, f.message);
    } else {
      SameToken(Head(e), t, e.message, Head(f), u, f.message);
      HeadComesBack(e, f);
    }
  }

  lemma MovedSlash(x: string, y: string, z: string)
    ensures Two('/', x, Two('/', y, z)) == Two('/', Two('/', x, y), z)
  {
  }

  lemma LongerAgent(a: string, b: string, rest: string)
    ensures Two('/', a, b + rest) == Two('/', a, b) + rest
  {
  }

  lemma EventsCollide(e: Event) returns (f: Event)
    requires !EventClean(e)
    ensures f != e && EventKey(f) == EventKey(e)
  {
    if Contains(e.specSlug, '/') {
      var x, y := CutAt('/', e.specSlug);
      f := e.(specSlug := x, agent := Two('/', y, e.agent));
      MovedSlash(x, y, e.agent);
      assert |f.specSlug| < |e.specSlug|;
    } else if Contains(e.agent, '/') {
      var x, y := CutAt('/', e.agent);
      f := e.(specSlug := Two('/', e.specSlug, x), agent := y);
      MovedSlash(e.specSlug, x, y);
      assert |f.specSlug| > |e.specSlug|;
    } else {
      f := MessageCollides(e);
    }
  }

  lemma MessageCollides(e: Event) returns (f: Event)
    requires TypeWithin(['/'] + e.message)
    ensures f != e && EventKey(f) == EventKey(e)
  {
    var t: EventType :| Within(['/'] + e.message, EventTypeName(t));
    var name := EventTypeName(e.eventType);
    var x, y := TokenInEnd(Head(e), name, e.message, EventTypeName(t));
    f := Event(e.specSlug, Two('/', e.agent, name) + x, t, y);
    MovedSlash(e.specSlug, e.agent, name);
    LongerAgent(e.specSlug, Two('/', e.agent, name), x);
    assert Head(f) == Two('/', Head(e), name) + x;
    assert |f.agent| > |e.agent|;
  }
}
