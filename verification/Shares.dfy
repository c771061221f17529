/**
 Splitting a total over the nodes of an inference and keying the shares by payee:
 prsm/settlement/per_stage_settlement_split.py, scripts/per_stage_sepolia_bench.py.
 */
module Shares {
  import opened Words
  import opened Outcomes
  import opened Totals

  function Sum(xs: seq<nat>): nat {
    if xs == [] then 0 else xs[0] + Sum(xs[1..])
  }

  lemma {:induction false} SumAppend(xs: seq<nat>, x: nat)
    ensures Sum(xs + [x]) == Sum(xs) + x
  {
    if xs != [] {
      assert (xs + [x])[1..] == xs[1..] + [x];
      SumAppend(xs[1..], x);
    }
  }

  /** The equal split: `n` shares within one wei of each other, the first ones larger. */
  ghost predicate EqualSplit(total: nat, shares: seq<nat>) {
    && shares != [] && Sum(shares) == total
    && (forall i, j :: 0 <= i <= j < |shares| ==> shares[j] <= shares[i] <= shares[j] + 1)
  }

  /** `compute_per_stage_shares`: rejects a bad total or an empty list, otherwise conserves every wei. */
  method ComputePerStageShares(total: int, n: nat) returns (r: Result<seq<nat>>)
    ensures r.Ok? <==> 0 <= total < Pow256(16) && n > 0
    ensures r.Ok? ==> |r.value| == n && EqualSplit(total, r.value)
    ensures r.Ok? ==> r.value == EqualShares(total, n)
  {
    if total < 0 || total >= Pow256(16) || n == 0 {
      return Raised;
    }
    var base, remainder := total / n, total % n;
    var shares := [];
    ghost var spec := EqualShares(total, n);
    assert forall i :: 0 <= i < n ==> spec[i] == base + (if i < remainder then 1 else 0);
    EqualSharesSplit(total, n);
    for i := 0 to n
      invariant shares == spec[..i]
    {
      shares := shares + [base + (if i < remainder then 1 else 0)];
      assert spec[..i + 1] == spec[..i] + [spec[i]];
    }
    assert spec[..n] == spec;
    r := Ok(shares);
  }

  function EqualShares(total: nat, n: nat): (shares: seq<nat>)
    requires n > 0
    ensures |shares| == n
  {
    seq(n, i requires 0 <= i < n => total / n + (if i < total % n then 1 else 0))
  }

  lemma {:induction false} PrefixSum(total: nat, n: nat, k: nat)
    requires 0 < n && k <= n
    ensures Sum(EqualShares(total, n)[..k]) == k * (total / n) + (if k < total % n then k else total % n)
  {
    if k == 0 {
      assert 0 * (total / n) == 0;
    } else {
      var s := EqualShares(total, n);
      PrefixSum(total, n, k - 1);
      assert s[..k] == s[..k - 1] + [s[k - 1]];
      SumAppend(s[..k - 1], s[k - 1]);
      assert (k - 1) * (total / n) + total / n == k * (total / n);
    }
  }

  lemma {:induction false} EqualSharesSplit(total: nat, n: nat)
    requires n > 0
    ensures EqualSplit(total, EqualShares(total, n))
  {
    var s := EqualShares(total, n);
    PrefixSum(total, n, n);
    assert s[..n] == s;
  }

  // ---- Payouts keyed by committer address ----

  /** The dictionary the loop fills: the last share written for an address stays. */
  function PayoutMap(payees: seq<nat>, shares: seq<nat>): map<nat, nat>
    requires |payees| == |shares|
  {
    if payees == [] then map[] else map[payees[0] := shares[0]] + PayoutMap(payees[1..], shares[1..])
  }

  /** Shares whose address turns up again later. */
  function Overwritten(payees: seq<nat>, shares: seq<nat>): nat
    requires |payees| == |shares|
  {
    if payees == [] then 0
    else (if payees[0] in payees[1..] then shares[0] else 0) + Overwritten(payees[1..], shares[1..])
  }

  lemma {:induction false} PayoutKeys(payees: seq<nat>, shares: seq<nat>)
    requires |payees| == |shares|
    ensures forall a :: a in PayoutMap(payees, shares) <==> a in payees
  {
    if payees != [] {
      PayoutKeys(payees[1..], shares[1..]);
    }
  }

  lemma {:induction false} PayoutAppend(payees: seq<nat>, shares: seq<nat>, a: nat, v: nat)
    requires |payees| == |shares|
    ensures PayoutMap(payees + [a], shares + [v]) == PayoutMap(payees, shares)[a := v]
  {
    if payees == [] {
      assert PayoutMap([a], [v]) == map[a := v] + PayoutMap([], []);
    } else {
      assert (payees + [a])[1..] == payees[1..] + [a] && (shares + [v])[1..] == shares[1..] + [v];
      PayoutAppend(payees[1..], shares[1..], a, v);
    }
  }

  /** In general the map adds up to the total less the overwritten shares. */
  lemma {:induction false} PayoutTotal(payees: seq<nat>, shares: seq<nat>)
    requires |payees| == |shares|
    ensures Total(PayoutMap(payees, shares)) + Overwritten(payees, shares) == Sum(shares)
  {
    if payees != [] {
      var rest := PayoutMap(payees[1..], shares[1..]);
      PayoutTotal(payees[1..], shares[1..]);
      PayoutKeys(payees[1..], shares[1..]);
      if payees[0] in payees[1..] {
        assert PayoutMap(payees, shares) == rest;
      } else {
        assert PayoutMap(payees, shares) == rest[payees[0] := shares[0]];
        TotalUpdate(rest, payees[0], shares[0]);
      }
    }
  }

  lemma {:induction false} OverwrittenExactly(payees: seq<nat>, shares: seq<nat>)
    requires |payees| == |shares|
    requires forall i :: 0 <= i < |shares| ==> shares[i] > 0
    ensures Overwritten(payees, shares) == 0 <==> Distinct(payees)
  {
    if payees != [] {
      OverwrittenExactly(payees[1..], shares[1..]);
      if Overwritten(payees, shares) == 0 {
        assert payees[0] !in payees[1..];
        assert forall i, j :: 0 < i < j < |payees| ==>
          payees[i] == payees[1..][i - 1] && payees[j] == payees[1..][j - 1];
      }
    }
  }

  /** With positive shares the map adds up to the total exactly when no two nodes share an address. */
  lemma {:induction false} PayoutConservesIff(payees: seq<nat>, shares: seq<nat>)
    requires |payees| == |shares|
    requires forall i :: 0 <= i < |shares| ==> shares[i] > 0
    ensures Total(PayoutMap(payees, shares)) == Sum(shares) <==> Distinct(payees)
  {
    PayoutTotal(payees, shares);
    OverwrittenExactly(payees, shares);
  }

  /** `compute_expected_payouts`: fill the dictionary, then assert that it conserves the total. */
  method ComputeExpectedPayouts(payees: seq<nat>, shares: seq<nat>, total: nat) returns (r: Result<map<nat, nat>>)
    requires |payees| == |shares|
    ensures r.Ok? ==> r.value == PayoutMap(payees, shares)
    ensures r.Ok? <==> Sum(shares) - Overwritten(payees, shares) == total
  {
    var byEth: map<nat, nat> := map[];
    var sum := 0;
    for k := 0 to |payees|
      invariant byEth == PayoutMap(payees[..k], shares[..k])
      invariant sum == Total(byEth)
    {
      assert payees[..k + 1] == payees[..k] + [payees[k]] && shares[..k + 1] == shares[..k] + [shares[k]];
      PayoutAppend(payees[..k], shares[..k], payees[k], shares[k]);
      TotalUpdate(byEth, payees[k], shares[k]);
      sum := sum - Get(byEth, payees[k]) + shares[k];
      byEth := byEth[payees[k] := shares[k]];
    }
    assert payees[..|payees|] == payees && shares[..|shares|] == shares;
    PayoutTotal(payees, shares);
    r := if sum == total then Ok(byEth) else Raised;
  }
}
