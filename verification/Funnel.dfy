/** The authoring funnel (internal/authoring/stages.go). */
module Funnel {
  const STAGES: seq<string> := ["spark", "shape", "specify", "decompose", "approved"]

  datatype Verdict = Ok | NoOp | Unknown(names: seq<string>) | Invalid

  /** Position in the funnel, or -1. */
  function IndexOf(stage: string): (i: int)
    ensures -1 <= i < |STAGES|
    ensures i >= 0 ==> STAGES[i] == stage
    ensures i < 0 ==> stage !in STAGES
  {
    if stage == STAGES[0] then 0
    else if stage == STAGES[1] then 1
    else if stage == STAGES[2] then 2
    else if stage == STAGES[3] then 3
    else if stage == STAGES[4] then 4
    else -1
  }

  function UnknownNames(from: string, to: string, allowEmptyFrom: bool): seq<string> {
    (if IndexOf(from) < 0 && (!allowEmptyFrom || from != "") then [from] else [])
    + (if IndexOf(to) < 0 then [to] else [])
  }

  function ValidateTransition(from: string, to: string): Verdict {
    if from == to then NoOp
    else if UnknownNames(from, to, true) != [] then Unknown(UnknownNames(from, to, true))
    else if from == "" && IndexOf(to) == 0 then Ok
    else if IndexOf(from) >= 0 && IndexOf(to) == IndexOf(from) + 1 then Ok
    else if IndexOf(from) >= 0 && IndexOf(to) >= 0 && IndexOf(to) < IndexOf(from) then Ok
    else Invalid
  }

  function ValidateAmendTransition(from: string, to: string): Verdict {
    if from == to then NoOp
    else if UnknownNames(from, to, false) != [] then Unknown(UnknownNames(from, to, false))
    else if IndexOf(to) < IndexOf(from) then Ok
    else Invalid
  }

  /** Stages are known by their position. */
  lemma SamePosition(a: string, b: string)
    requires IndexOf(a) == IndexOf(b) >= 0
    ensures a == b
  {
  }

  /** Amend accepts exactly the accepted transitions that go back. */
  lemma AmendIsBackwardHalf(from: string, to: string)
    ensures ValidateAmendTransition(from, to).Ok? <==>
            ValidateTransition(from, to).Ok? && IndexOf(to) < IndexOf(from)
    ensures ValidateTransition(from, to).Ok? && !ValidateAmendTransition(from, to).Ok? <==>
            IndexOf(to) >= 0 && IndexOf(to) == IndexOf(from) + 1 && (IndexOf(from) >= 0 || from == "")
  {
    if IndexOf(from) == IndexOf(to) >= 0 {
      SamePosition(from, to);
    }
  }

  /** When a move is accepted, refused, a no-op or between unknown stages, for both rules,
      by the position of the stages alone. */
  lemma VerdictsExact(from: string, to: string)
    ensures var step, amend := ValidateTransition(from, to), ValidateAmendTransition(from, to);
            var i, j := IndexOf(from), IndexOf(to);
            && (step.NoOp? <==> from == to) && (amend.NoOp? <==> from == to)
            && (step.Unknown? <==> from != to && ((i < 0 && from != "") || j < 0))
            && (amend.Unknown? <==> from != to && (i < 0 || j < 0))
            && (step.Ok? <==> j >= 0 && (if i >= 0 then j == i + 1 || j < i else from == "" && j == 0))
            && (amend.Ok? <==> 0 <= j < i)
            && (step.Unknown? ==> forall name :: name in step.names <==>
                  (name == from && i < 0 && from != "") || (name == to && j < 0))
            && (amend.Unknown? ==> forall name :: name in amend.names <==> (name == from && i < 0) || (name == to && j < 0))
  {
    if IndexOf(from) == IndexOf(to) >= 0 {
      SamePosition(from, to);
    }
  }

  /** The funnel itself. */
  lemma Positions()
    ensures IndexOf("spark") == 0 && IndexOf("shape") == 1 && IndexOf("specify") == 2
    ensures IndexOf("decompose") == 3 && IndexOf("approved") == 4
  {
    var names := ["spark", "shape", "specify", "decompose", "approved"];
    assert STAGES == names;
    assert |names[0]| == 5 && |names[1]| == 5 && names[0][1] == 'p' && names[1][1] == 'h';
    assert |names[2]| == 7 && |names[3]| == 9 && |names[4]| == 8;
  }

  /** A history of stages, oldest first, each step accepted by the given rule. */
  ghost predicate Run(s: seq<string>) {
    |s| > 0 && s[0] == "" && forall i :: 0 < i < |s| ==> ValidateTransition(s[i - 1], s[i]).Ok?
  }

  ghost predicate AmendChain(s: seq<string>) {
    forall i :: 0 < i < |s| ==> ValidateAmendTransition(s[i - 1], s[i]).Ok?
  }

  lemma RunIndices(s: seq<string>, n: nat)
    requires Run(s) && 0 < n < |s|
    ensures IndexOf(s[n]) >= 0
    ensures IndexOf(s[n]) <= IndexOf(s[n - 1]) + 1
  {
    assert ValidateTransition(s[n - 1], s[n]).Ok?;
  }

  /** m is the last time before n that the run stood at stage j: from there it
      went to the next stage and it has stayed above j since. */
  ghost predicate LastLeft(s: seq<string>, j: nat, m: nat, n: nat)
    requires n < |s|
  {
    && m < n && IndexOf(s[m]) == j && IndexOf(s[m + 1]) == j + 1
    && forall i :: m < i <= n ==> IndexOf(s[i]) > j
  }

  /** No stage is skipped: whoever stands at stage k has been at every earlier one,
      and after the last visit to it moved on to the next and stayed above. */
  lemma {:induction false} NoStageSkipped(s: seq<string>, n: nat, j: nat) returns (m: nat)
    requires Run(s) && n < |s| && j < IndexOf(s[n])
    ensures LastLeft(s, j, m, n)
  {
    assert n > 0;
    RunIndices(s, n);
    if IndexOf(s[n - 1]) == j {
      m := n - 1;
    } else {
      m := NoStageSkipped(s, n - 1, j);
    }
  }

  /** Amending can be repeated at most once a stage. */
  lemma {:induction false} AmendChainsEnd(s: seq<string>)
    requires AmendChain(s) && |s| > 1
    ensures |s| <= |STAGES| && IndexOf(s[|s| - 1]) >= 0
    ensures IndexOf(s[|s| - 1]) <= |STAGES| - |s|
  {
    assert ValidateAmendTransition(s[|s| - 2], s[|s| - 1]).Ok?;
    if |s| > 2 {
      AmendChainsEnd(s[..|s| - 1]);
    }
  }
}
