/** The connect retry loops (cmd/specgraph/connector.go). */
module Connector {

  const TWO_62 := 0x4000_0000_0000_0000
  const TWO_63 := 0x8000_0000_0000_0000
  const TWO_64 := 0x1_0000_0000_0000_0000

  /** time.Duration is a 64-bit integer. */
  type Duration = d: int | -TWO_63 <= d < TWO_63

  function Wrap(d: int): Duration {
    (d + TWO_63) % TWO_64 - TWO_63
  }

  datatype Policy = Policy(otherBase: Duration, otherMax: Duration, credInterval: Duration, credMaxRetry: int)

  datatype Attempt = Success | Credential | Other

  /** One turn of the loop: what the attempt gave, whether the context was then
      cancelled, and whether the sleep was interrupted. */
  datatype Turn = Turn(attempt: Attempt, cancelled: bool, interrupted: bool)

  /** Waiting: the turns given so far end nothing. */
  datatype Verdict = Connected | Fatal | Cancelled | Degraded | Waiting

  // ---------------------------------------------------------------- backoff

  function Cap(d: int, max: int): int {
    if d > max then max else d
  }

  /** The backoff before the k-th sleep after a non-credential failure. */
  function Backoff(pol: Policy, k: nat): Duration {
    if k == 0 then pol.otherBase else Cap(Wrap(Backoff(pol, k - 1) * 2), pol.otherMax)
  }

  function Pow2(k: nat): nat {
    if k == 0 then 1 else 2 * Pow2(k - 1)
  }

  /** base · 2^k by doubling. */
  function Doubled(base: int, k: nat): int {
    if k == 0 then base else 2 * Doubled(base, k - 1)
  }

  lemma {:induction false} DoubledIsProduct(base: int, k: nat)
    ensures Doubled(base, k) == base * Pow2(k)
  {
    if k > 0 {
      DoubledIsProduct(base, k - 1);
      var p := Pow2(k - 1);
      assert 2 * (base * p) == base * (2 * p);
    }
  }

  lemma {:induction false} DoubledGrows(base: int, k: nat)
    requires base > 0
    ensures Doubled(base, k) > k
  {
    if k > 0 {
      DoubledGrows(base, k - 1);
    }
  }

  lemma WrapValue(d: int)
    requires 0 <= d < TWO_64
    ensures Wrap(d) == if d < TWO_63 then d else d - TWO_64
  {
  }

  lemma {:induction false} CappedDoubling(pol: Policy, k: nat)
    requires 0 <= pol.otherBase <= pol.otherMax < TWO_62
    ensures Backoff(pol, k) == Cap(Doubled(pol.otherBase, k), pol.otherMax) && 0 <= Doubled(pol.otherBase, k)
  {
    if k > 0 {
      CappedDoubling(pol, k - 1);
      WrapValue(Backoff(pol, k - 1) * 2);
    }
  }

  /** Doubling with a cap is capped doubling, and nothing overflows below 2^62. */
  lemma BackoffClosedForm(pol: Policy, k: nat)
    requires 0 <= pol.otherBase <= pol.otherMax < TWO_62
    ensures Backoff(pol, k) == Cap(pol.otherBase * Pow2(k), pol.otherMax)
  {
    CappedDoubling(pol, k);
    DoubledIsProduct(pol.otherBase, k);
  }

  ghost predicate ClosedForm(pol: Policy, k: nat) {
    Backoff(pol, k) == Cap(pol.otherBase * Pow2(k), pol.otherMax)
  }

  /** At 2^62 and above, the doubling after the cap was reached overflows. */
  lemma BackoffOverflows(pol: Policy)
    requires 0 < pol.otherBase <= pol.otherMax && TWO_62 <= pol.otherMax
    ensures exists k: nat :: !ClosedForm(pol, k)
  {
    var k: nat := pol.otherMax;
    DoubledGrows(pol.otherBase, k);
    DoubledIsProduct(pol.otherBase, k);
    DoubledIsProduct(pol.otherBase, k + 1);
    if ClosedForm(pol, k) {
      assert Backoff(pol, k) == pol.otherMax;
      WrapValue(pol.otherMax * 2);
      assert Backoff(pol, k + 1) < 0;
      assert !ClosedForm(pol, k + 1);
    }
  }

  lemma {:induction false} DoubledFalls(base: int, k: nat)
    requires base < 0
    ensures Doubled(base, k) + k < 0
  {
    if k > 0 {
      DoubledFalls(base, k - 1);
    }
  }

  /** From a negative base the closed form leaves the range of the type. */
  lemma NegativeOverflows(pol: Policy)
    requires pol.otherBase < 0 && pol.otherBase <= pol.otherMax
    ensures !ClosedForm(pol, TWO_63)
  {
    DoubledFalls(pol.otherBase, TWO_63);
    DoubledIsProduct(pol.otherBase, TWO_63);
  }

  /** The closed form holds for every k exactly when the base is zero, or positive with
      a maximum below 2^62. */
  lemma BackoffExactlyBelow(pol: Policy)
    requires pol.otherBase <= pol.otherMax
    ensures (forall k: nat :: ClosedForm(pol, k)) <==>
            pol.otherBase == 0 || (pol.otherBase > 0 && pol.otherMax < TWO_62)
  {
    if pol.otherBase < 0 {
      NegativeOverflows(pol);
    } else if pol.otherBase == 0 {
      forall k: nat ensures ClosedForm(pol, k) {
        ZeroStays(pol, k);
      }
    } else if pol.otherMax < TWO_62 {
      forall k: nat ensures ClosedForm(pol, k) {
        BackoffClosedForm(pol, k);
      }
    } else {
      BackoffOverflows(pol);
    }
  }

  lemma {:induction false} ZeroStays(pol: Policy, k: nat)
    requires pol.otherBase == 0 <= pol.otherMax
    ensures ClosedForm(pol, k) && Backoff(pol, k) == 0
  {
    if k > 0 {
      ZeroStays(pol, k - 1);
    }
  }

  // ---------------------------------------------------------------- the loops

  /** The number of non-credential failures among the first n turns. */
  function Others(turns: seq<Turn>, n: nat): nat
    requires n <= |turns|
  {
    if n == 0 then 0 else Others(turns, n - 1) + if turns[n - 1].attempt.Other? then 1 else 0
  }

  lemma OthersNext(turns: seq<Turn>, i: nat)
    requires i < |turns|
    ensures Others(turns, i + 1) == Others(turns, i) + if turns[i].attempt.Other? then 1 else 0
  {
  }

  /** The number of credential failures in a row that end at turn n. */
  function Trailing(turns: seq<Turn>, n: nat): nat
    requires n <= |turns|
  {
    if n == 0 || !turns[n - 1].attempt.Credential? then 0 else Trailing(turns, n - 1) + 1
  }

  lemma {:induction false} TrailingIsLongestRun(turns: seq<Turn>, n: nat, m: nat)
    requires n <= |turns|
    ensures CredentialRun(turns, n, m) <==> m <= Trailing(turns, n)
    ensures Trailing(turns, n) <= n
  {
    if n > 0 && turns[n - 1].attempt.Credential? && m > 0 {
      TrailingIsLongestRun(turns, n - 1, m - 1);
    } else if n > 0 && turns[n - 1].attempt.Credential? {
      TrailingIsLongestRun(turns, n - 1, 0);
    }
  }

  /** How long the loop sleeps after turn i. */
  function SleepAfter(pol: Policy, turns: seq<Turn>, i: nat): Duration
    requires i < |turns|
  {
    if turns[i].attempt.Credential? then pol.credInterval else Backoff(pol, Others(turns, i))
  }

  /** The first credential failure counts even when the policy allows none. */
  function Limit(pol: Policy): nat {
    if pol.credMaxRetry < 1 then 1 else pol.credMaxRetry
  }

  /** The last m of the first n turns were credential failures. */
  predicate CredentialRun(turns: seq<Turn>, n: nat, m: nat)
    requires n <= |turns|
  {
    m <= n && forall j :: n - m <= j < n ==> turns[j].attempt.Credential?
  }

  /** None of the first n turns ended the loop. */
  predicate Undecided(pol: Policy, turns: seq<Turn>, n: nat)
    requires n <= |turns|
  {
    forall i :: 0 <= i < n ==>
      && !turns[i].attempt.Success? && !turns[i].cancelled && !turns[i].interrupted
      && !CredentialRun(turns, i + 1, Limit(pol))
  }

  /** A run of m credential failures ends at n, and no success came before. */
  predicate FailsThrough(turns: seq<Turn>, n: nat, m: nat)
    requires n <= |turns|
  {
    CredentialRun(turns, n, m) && forall i :: 0 <= i < n ==> !turns[i].attempt.Success?
  }

  predicate GivesUpAt(pol: Policy, turns: seq<Turn>, n: nat)
    requires n <= |turns|
  {
    FailsThrough(turns, n, Limit(pol))
  }

  predicate Uncancelled(turns: seq<Turn>) {
    forall i :: 0 <= i < |turns| ==> !turns[i].cancelled && !turns[i].interrupted
  }

  /** The doubling in 64-bit arithmetic, and the cap. */
  method NextBackoff(pol: Policy, backoff: Duration, ghost k: nat) returns (next: Duration)
    requires backoff == Backoff(pol, k)
    ensures next == Backoff(pol, k + 1)
  {
    next := Wrap(backoff * 2);
    if next > pol.otherMax {
      next := pol.otherMax;
    }
  }

  /** How the loop ends on these turns, after using some of them. */
  predicate Ends(pol: Policy, turns: seq<Turn>, v: Verdict, used: nat)
    requires used <= |turns|
  {
    match v
    case Connected => used > 0 && Undecided(pol, turns, used - 1) && turns[used - 1].attempt.Success?
    case Fatal =>
      used > 0 && Undecided(pol, turns, used - 1) && GivesUpAt(pol, turns, used) && !turns[used - 1].cancelled
    case Cancelled =>
      && used > 0 && Undecided(pol, turns, used - 1) && !turns[used - 1].attempt.Success?
      && (turns[used - 1].cancelled || (turns[used - 1].interrupted && !CredentialRun(turns, used, Limit(pol))))
    case Degraded => false
    case Waiting => used == |turns| && Undecided(pol, turns, used)
  }

  /** Without cancellation the loop gives up exactly when a full run of credential
      failures comes before the first success. */
  lemma FatalExactly(pol: Policy, turns: seq<Turn>, v: Verdict, used: nat)
    requires used <= |turns| && Ends(pol, turns, v, used) && Uncancelled(turns)
    ensures pol.credMaxRetry >= 1 ==>
              (v == Fatal <==> exists n :: 0 < n <= |turns| && FailsThrough(turns, n, pol.credMaxRetry))
    ensures pol.credMaxRetry < 1 ==>
              (v == Fatal <==> exists n :: 0 < n <= |turns| && FailsThrough(turns, n, 1))
  {
    var m := Limit(pol);
    assert m == if pol.credMaxRetry < 1 then 1 else pol.credMaxRetry;
    if v == Fatal {
      assert FailsThrough(turns, used, m);
    } else {
      forall n | 0 < n <= |turns| ensures !FailsThrough(turns, n, m) {
        var last := n - 1;
        if n < used || v == Waiting {
          assert !turns[last].cancelled && !CredentialRun(turns, last + 1, Limit(pol));
        } else {
          assert turns[used - 1].attempt.Success?;
        }
      }
    }
  }

  /** The sleeps in closed form: fixed after a credential failure, and after the k-th other
      one the base doubled k times, up to the maximum. */
  lemma SleepsExact(pol: Policy, turns: seq<Turn>, i: nat)
    requires i < |turns| && 0 <= pol.otherBase <= pol.otherMax < TWO_62
    ensures SleepAfter(pol, turns, i) ==
            if turns[i].attempt.Credential? then pol.credInterval
            else if pol.otherBase * Pow2(Others(turns, i)) > pol.otherMax then pol.otherMax
            else pol.otherBase * Pow2(Others(turns, i))
  {
    BackoffClosedForm(pol, Others(turns, i));
  }

  /** A failed turn that neither was cancelled nor completes a run decides nothing. */
  lemma StillUndecided(pol: Policy, turns: seq<Turn>, i: nat)
    requires i < |turns| && Undecided(pol, turns, i) && Trailing(turns, i + 1) < Limit(pol)
    requires !turns[i].attempt.Success? && !turns[i].cancelled && !turns[i].interrupted
    ensures Undecided(pol, turns, i + 1)
  {
    TrailingIsLongestRun(turns, i + 1, Limit(pol));
  }

  /** The turn that ends the loop, by what it brings. */
  lemma EndsHere(pol: Policy, turns: seq<Turn>, i: nat, v: Verdict)
    requires i < |turns| && Undecided(pol, turns, i)
    requires match v
             case Connected => turns[i].attempt.Success?
             case Cancelled =>
               && !turns[i].attempt.Success?
               && (turns[i].cancelled || (turns[i].interrupted && Trailing(turns, i + 1) < Limit(pol)))
             case Fatal => turns[i].attempt.Credential? && !turns[i].cancelled && Trailing(turns, i + 1) >= Limit(pol)
             case _ => false
    ensures Ends(pol, turns, v, i + 1)
  {
    TrailingIsLongestRun(turns, i + 1, Limit(pol));
  }

  /** The loop on any finite part of the attempt stream; every sleep is the one its
      place in the stream asks for. */
  method RunConnector(turns: seq<Turn>, pol: Policy) returns (v: Verdict, used: nat, sleeps: seq<Duration>)
    ensures used <= |turns| && Ends(pol, turns, v, used)
    ensures |sleeps| == used || (|sleeps| == used - 1 && v != Waiting)
    ensures v == Connected || v == Fatal ==> |sleeps| == used - 1
    ensures forall i :: 0 <= i < |sleeps| ==> sleeps[i] == SleepAfter(pol, turns, i)
  {
    var credCount := 0;
    var backoff: Duration := pol.otherBase;
    sleeps := [];
    for i := 0 to |turns|
      invariant Undecided(pol, turns, i)
      invariant credCount == Trailing(turns, i) < Limit(pol)
      invariant backoff == Backoff(pol, Others(turns, i))
      invariant |sleeps| == i && forall k :: 0 <= k < i ==> sleeps[k] == SleepAfter(pol, turns, k)
    {
      OthersNext(turns, i);
      var t := turns[i];
      if t.attempt.Success? {
        EndsHere(pol, turns, i, Connected);
        return Connected, i + 1, sleeps;
      }
      if t.cancelled {
        EndsHere(pol, turns, i, Cancelled);
        return Cancelled, i + 1, sleeps;
      }
      if t.attempt.Credential? {
        credCount := credCount + 1;
        if credCount >= pol.credMaxRetry {
          EndsHere(pol, turns, i, Fatal);
          return Fatal, i + 1, sleeps;
        }
        sleeps := sleeps + [pol.credInterval];
        if t.interrupted {
          EndsHere(pol, turns, i, Cancelled);
          return Cancelled, i + 1, sleeps;
        }
      } else {
        credCount := 0;
        sleeps := sleeps + [backoff];
        if t.interrupted {
          EndsHere(pol, turns, i, Cancelled);
          return Cancelled, i + 1, sleeps;
        }
        backoff := NextBackoff(pol, backoff, Others(turns, i));
        assert t.attempt.Other? && Others(turns, i + 1) == Others(turns, i) + 1;
      }
      StillUndecided(pol, turns, i);
    }
    return Waiting, |turns|, sleeps;
  }

  /** The boot phase: the same credential rule, but the first other failure makes
      the caller go degraded. */
  method FirstConnect(turns: seq<Turn>, pol: Policy) returns (v: Verdict, used: nat)
    ensures used <= |turns|
    ensures v != Waiting ==> used > 0
    ensures forall i :: 0 <= i < used - 1 ==> turns[i].attempt.Credential? && !turns[i].cancelled && !turns[i].interrupted
    ensures v == Connected ==> turns[used - 1].attempt.Success? && used <= Limit(pol)
    ensures v == Degraded ==> turns[used - 1].attempt.Other? && !turns[used - 1].cancelled && used <= Limit(pol)
    ensures v == Fatal ==> turns[used - 1].attempt.Credential? && !turns[used - 1].cancelled && used == Limit(pol)
    ensures v == Cancelled ==>
              && !turns[used - 1].attempt.Success? && used <= Limit(pol)
              && (turns[used - 1].cancelled
                  || (turns[used - 1].interrupted && turns[used - 1].attempt.Credential? && used < Limit(pol)))
    ensures v == Waiting ==> used == |turns| < Limit(pol) && forall i :: 0 <= i < used ==> turns[i].attempt.Credential?
  {
    var credCount := 0;
    for i := 0 to |turns|
      invariant credCount == i < Limit(pol)
      invariant forall k :: 0 <= k < i ==> turns[k].attempt.Credential? && !turns[k].cancelled && !turns[k].interrupted
    {
      var t := turns[i];
      if t.attempt.Success? {
        return Connected, i + 1;
      }
      if t.cancelled {
        return Cancelled, i + 1;
      }
      if t.attempt.Other? {
        return Degraded, i + 1;
      }
      credCount := credCount + 1;
      if credCount >= pol.credMaxRetry {
        return Fatal, i + 1;
      }
      if t.interrupted {
        return Cancelled, i + 1;
      }
    }
    return Waiting, |turns|;
  }
}
