/** Conversation exchanges: validation (internal/authoring/validate.go) and the
    renderer that groups them by sequence number (internal/render/conversation.go). */
module Conversation {
  import opened Wrappers
  import opened Text

  const MAX_EXCHANGES := 100
  const MAX_CONTENT_LEN := 4096

  datatype Exchange = Exchange(role: string, content: string, stage: string, sequence: int, decisionPoint: bool)

  /** Bad names the first exchange that breaks a rule. */
  datatype Verdict = Accepted | NoExchanges | TooMany | Bad(index: nat)

  // ---------------------------------------------------------------- validation

  /** The rules one exchange has to meet by itself. */
  predicate WellFormed(e: Option<Exchange>, targetStage: string) {
    && e.Some?
    && (e.value.role == "probe" || e.value.role == "response")
    && 0 < |e.value.content| <= 4096
    && (e.value.stage == "" || e.value.stage == targetStage)
    && e.value.sequence > 0
  }

  /** Well formed and, pairwise, in strictly increasing sequence. */
  predicate Acceptable(exchanges: seq<Option<Exchange>>, targetStage: string) {
    && (forall i :: 0 <= i < |exchanges| ==> WellFormed(exchanges[i], targetStage))
    && forall i, j :: 0 <= i < j < |exchanges| ==> exchanges[i].value.sequence < exchanges[j].value.sequence
  }

  /** Comparing each sequence with the previous one only is enough to order all
      pairs; a refusal names the first exchange that cannot be accepted. */
  method ValidateExchanges(exchanges: seq<Option<Exchange>>, targetStage: string) returns (v: Verdict)
    ensures v == Accepted <==> 0 < |exchanges| <= 100 && Acceptable(exchanges, targetStage)
    ensures v == NoExchanges <==> exchanges == []
    ensures v == TooMany <==> |exchanges| > 100
    ensures v.Bad? ==> v.index < |exchanges| && Acceptable(exchanges[..v.index], targetStage)
                       && !Acceptable(exchanges[..v.index + 1], targetStage)
  {
    if |exchanges| == 0 {
      return NoExchanges;
    }
    if |exchanges| > MAX_EXCHANGES {
      return TooMany;
    }
    var lastSeq, seenAny := 0, false;
    for i := 0 to |exchanges|
      invariant Acceptable(exchanges[..i], targetStage)
      invariant seenAny <==> i > 0
      invariant seenAny ==> lastSeq == exchanges[i - 1].value.sequence
    {
      var prefix := exchanges[..i + 1];
      assert prefix[i] == exchanges[i] && prefix[..i] == exchanges[..i];
      if exchanges[i].None? {
        return Bad(i);
      }
      var e := exchanges[i].value;
      if e.role == "" || (e.role != "probe" && e.role != "response") || e.content == "" || |e.content| > MAX_CONTENT_LEN {
        return Bad(i);
      }
      if e.stage != "" && e.stage != targetStage {
        return Bad(i);
      }
      if e.sequence <= 0 {
        return Bad(i);
      }
      if seenAny && e.sequence <= lastSeq {
        assert prefix[i - 1] == exchanges[i - 1];
        return Bad(i);
      }
      lastSeq, seenAny := e.sequence, true;
      Extended(exchanges, i, targetStage);
    }
    assert exchanges[..|exchanges|] == exchanges;
    return Accepted;
  }

  lemma Extended(exchanges: seq<Option<Exchange>>, i: nat, targetStage: string)
    requires i < |exchanges| && Acceptable(exchanges[..i], targetStage) && WellFormed(exchanges[i], targetStage)
    requires i > 0 ==> exchanges[i - 1].value.sequence < exchanges[i].value.sequence
    ensures Acceptable(exchanges[..i + 1], targetStage)
  {
    assert forall k :: 0 <= k < i ==> exchanges[..i][k] == exchanges[k] == exchanges[..i + 1][k];
    assert i > 0 ==> exchanges[..i][i - 1] == exchanges[i - 1];
  }

  // ---------------------------------------------------------------- rendering

  datatype Log = Log(stage: string, version: int, isAmend: bool, exchanges: seq<Exchange>)

  datatype Pair = Pair(probe: Option<Exchange>, response: Option<Exchange>)

  const NO_PAIR := Pair(None, None)

  function Header(log: Log): string {
    "### Authoring Conversation (" + log.stage + ", v" + SignedDecimal(log.version)
    + (if log.isAmend then ", amend" else "") + ")\n\n"
  }

  function Block(sequence: int, p: Pair): string {
    "**[" + SignedDecimal(sequence) + "]"
    + (if p.response.Some? && p.response.value.decisionPoint then " (decision)" else "") + "**\n"
    + (if p.probe.Some? then "> **Probe:** " + p.probe.value.content + "\n" else "")
    + (if p.response.Some? then "> **User:** " + p.response.value.content + "\n" else "")
    + "\n"
  }

  /** Which content follows which label: the probe's under Probe, above the answer's under
      User, each only if it is there; the tag of a decision is that of the answer. */
  lemma BlockExact(sequence: int, probe: Exchange, response: Exchange)
    ensures var tag := if response.decisionPoint then " (decision)" else "";
            && Block(sequence, Pair(Some(probe), Some(response))) ==
                 "**[" + SignedDecimal(sequence) + "]" + tag + "**\n"
                 + ("> **Probe:** " + probe.content + "\n") + ("> **User:** " + response.content + "\n") + "\n"
            && Block(sequence, Pair(Some(probe), None)) ==
                 "**[" + SignedDecimal(sequence) + "]" + "" + "**\n" + ("> **Probe:** " + probe.content + "\n") + "" + "\n"
            && Block(sequence, Pair(None, Some(response))) ==
                 "**[" + SignedDecimal(sequence) + "]" + tag + "**\n" + "" + ("> **User:** " + response.content + "\n") + "\n"
  {
  }

  lemma HeaderExact(log: Log)
    ensures var amend := if log.isAmend then ", amend" else "";
            Header(log) == "### Authoring Conversation (" + log.stage + ", v" + SignedDecimal(log.version) + amend + ")\n\n"
  {
  }

  function Placed(p: Pair, e: Exchange): Pair {
    if e.role == "probe" then p.(probe := Some(e)) else p.(response := Some(e))
  }

  /** The group of one sequence number among the first n exchanges: later ones
      overwrite earlier ones. */
  function Group(exchanges: seq<Exchange>, n: nat, sequence: int): Pair
    requires n <= |exchanges|
  {
    if n == 0 then NO_PAIR
    else
      var before, last := Group(exchanges, n - 1, sequence), exchanges[n - 1];
      if last.sequence == sequence then Placed(before, last) else before
  }

  /** The sequence numbers of the first n exchanges, each at its first occurrence. */
  function Order(exchanges: seq<Exchange>, n: nat): seq<int>
    requires n <= |exchanges|
  {
    if n == 0 then []
    else
      var before, last := Order(exchanges, n - 1), exchanges[n - 1];
      if last.sequence in before then before else before + [last.sequence]
  }

  /** The groups in the order in which they are written. */
  function Groups(exchanges: seq<Exchange>): seq<(int, Pair)> {
    var order := Order(exchanges, |exchanges|);
    seq(|order|, i requires 0 <= i < |order| => (order[i], Group(exchanges, |exchanges|, order[i])))
  }

  /** The text of the first n groups. */
  function Blocks(groups: seq<(int, Pair)>, block: (int, Pair) -> string, n: nat): string
    requires n <= |groups|
  {
    if n == 0 then "" else Blocks(groups, block, n - 1) + block(groups[n - 1].0, groups[n - 1].1)
  }

  function LogText(log: Log, groups: seq<(int, Pair)>): string {
    Header(log) + Blocks(groups, Block, |groups|)
  }

  function Render(log: Log): string {
    if log.exchanges == [] then "" else LogText(log, Groups(log.exchanges))
  }

  method ConversationLog(log: Option<Log>) returns (text: string)
    ensures text == if log.None? then "" else Render(log.value)
  {
    if log.None? || |log.value.exchanges| == 0 {
      return "";
    }
    var pairs, order := GroupExchanges(log.value.exchanges);
    text := WriteGroups(Header(log.value), pairs, order, Block, Groups(log.value.exchanges));
  }

  /** The loop that writes the groups, whatever the text of one group is. */
  method WriteGroups(header: string, pairs: map<int, Pair>, order: seq<int>, block: (int, Pair) -> string,
                     ghost groups: seq<(int, Pair)>)
    returns (text: string)
    requires |groups| == |order|
    requires forall i :: 0 <= i < |order| ==> order[i] in pairs && groups[i] == (order[i], pairs[order[i]])
    ensures text == header + Blocks(groups, block, |groups|)
  {
    text := header;
    for i := 0 to |order|
      invariant text == header + Blocks(groups, block, i)
    {
      text := text + block(order[i], pairs[order[i]]);
    }
  }

  /** The loop that fills the pairs and the order. */
  method GroupExchanges(exchanges: seq<Exchange>) returns (pairs: map<int, Pair>, order: seq<int>)
    ensures order == Order(exchanges, |exchanges|)
    ensures forall q :: q in pairs <==> q in order
    ensures forall q :: q in pairs ==> pairs[q] == Group(exchanges, |exchanges|, q)
  {
    pairs, order := map[], [];
    for i := 0 to |exchanges|
      invariant order == Order(exchanges, i)
      invariant forall q :: q in pairs <==> q in order
      invariant forall q :: if q in pairs then pairs[q] == Group(exchanges, i, q) else Group(exchanges, i, q) == NO_PAIR
    {
      var e := exchanges[i];
      if e.sequence !in pairs {
        pairs := pairs[e.sequence := NO_PAIR];
        order := order + [e.sequence];
      }
      pairs := pairs[e.sequence := Placed(pairs[e.sequence], e)];
    }
  }

  // ---------------------------------------------------------------- accepted lists

  predicate Increasing(exchanges: seq<Exchange>) {
    forall i, j :: 0 <= i < j < |exchanges| ==> exchanges[i].sequence < exchanges[j].sequence
  }

  /** The group of an exchange that shares its sequence number with no other. */
  function Solo(e: Exchange): (int, Pair) {
    (e.sequence, Placed(NO_PAIR, e))
  }

  lemma {:induction false} OrderOfIncreasing(exchanges: seq<Exchange>, n: nat)
    requires Increasing(exchanges) && n <= |exchanges|
    ensures |Order(exchanges, n)| == n
    ensures forall i :: 0 <= i < n ==> Order(exchanges, n)[i] == exchanges[i].sequence
  {
    if n > 0 {
      OrderOfIncreasing(exchanges, n - 1);
    }
  }

  /** A group holds exactly one exchange: nothing is overwritten. */
  lemma {:induction false} GroupOfIncreasing(exchanges: seq<Exchange>, n: nat, i: nat)
    requires Increasing(exchanges) && n <= |exchanges| && i < |exchanges|
    ensures Group(exchanges, n, exchanges[i].sequence) == if i < n then Placed(NO_PAIR, exchanges[i]) else NO_PAIR
  {
    if n > 0 {
      GroupOfIncreasing(exchanges, n - 1, i);
    }
  }

  function Values(exchanges: seq<Option<Exchange>>): seq<Exchange>
    requires forall i :: 0 <= i < |exchanges| ==> exchanges[i].Some?
  {
    seq(|exchanges|, i requires 0 <= i < |exchanges| => exchanges[i].value)
  }

  /** What validation accepts is rendered without loss: there are as many groups as
      exchanges, each holds exactly its exchange, and they follow the input order. */
  lemma AcceptedRendersInOrder(exchanges: seq<Option<Exchange>>, targetStage: string, log: Log)
    requires exchanges != [] && Acceptable(exchanges, targetStage) && log.exchanges == Values(exchanges)
    ensures |Groups(log.exchanges)| == |exchanges|
    ensures forall i :: 0 <= i < |exchanges| ==> Groups(log.exchanges)[i] == Solo(exchanges[i].value)
    ensures Render(log) == LogText(log, seq(|exchanges|, i requires 0 <= i < |exchanges| => Solo(exchanges[i].value)))
  {
    var all := log.exchanges;
    assert Increasing(all);
    OrderOfIncreasing(all, |all|);
    forall i | 0 <= i < |exchanges| ensures Groups(all)[i] == Solo(exchanges[i].value) {
      GroupOfIncreasing(all, |all|, i);
    }
    assert Groups(all) == seq(|exchanges|, i requires 0 <= i < |exchanges| => Solo(exchanges[i].value));
  }

  /** On any list, a slot of a group holds the last exchange of its sequence and
      kind, and is empty only when there is none. */
  lemma {:induction false} SlotHoldsLast(exchanges: seq<Exchange>, n: nat, sequence: int, probe: bool)
    requires n <= |exchanges|
    ensures var g := Group(exchanges, n, sequence);
            var slot := if probe then g.probe else g.response;
            match slot
            case None =>
              forall i :: 0 <= i < n && exchanges[i].sequence == sequence ==> (exchanges[i].role == "probe") != probe
            case Some(e) =>
              exists i :: 0 <= i < n && exchanges[i] == e && e.sequence == sequence && (e.role == "probe") == probe
                && forall j :: i < j < n && exchanges[j].sequence == sequence ==> (exchanges[j].role == "probe") != probe
  {
    if n > 0 {
      SlotHoldsLast(exchanges, n - 1, sequence, probe);
    }
  }
}
