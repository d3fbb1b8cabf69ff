/** When each call on the treasury succeeds and what it then writes, and who its signers are. */
module TreasuryRules {
  import opened Wrappers
  import opened Checked
  import opened Host
  import opened Sums
  import opened Treasury
  import opened TreasuryLaws

  /** Only the first `initialize` succeeds; only the administrator it names configures, with a threshold. */
  lemma AdministerIff(s: State, admin: Address, maxSpendBps: nat, threshold: nat)
    ensures var r := Apply(s, Initialize(admin));
            && (r.Ok? <==> s.admin.None?)
            && (r.Ok? ==> && r.value.state.admin == Some(admin) && r.value.state.maxSpendBps == 1000
                          && r.value.state.threshold == 2 && r.value.state.nextId == 1
                          && r.value.state.balances == s.balances && r.value.state.requests == s.requests
                          && r.value.state.signers == s.signers)
    ensures var r := Apply(s, Configure(admin, maxSpendBps, threshold));
            && (r.Ok? <==> s.admin == Some(admin) && threshold > 0)
            && (r.Ok? ==> r.value.state == s.(maxSpendBps := maxSpendBps, threshold := threshold))
  {
  }

  /** A deposit of a positive amount raises the balance of its asset and of no other, if it fits. */
  lemma DepositIff(s: State, asset: Symbol, amount: int)
    ensures var r := Apply(s, Deposit(asset, amount));
            && (r.Ok? <==> amount > 0 && FitsI128(At(s.balances, asset) + amount))
            && (r.Ok? ==> && r.value.value == At(s.balances, asset) + amount
                          && r.value.state == s.(balances := s.balances[asset := At(s.balances, asset) + amount],
                                                 assets := r.value.state.assets)
                          && forall a :: a in r.value.state.assets <==> a in s.assets || a == asset)
  {
  }

  /** A request is approved once by each of those who may sign at the time, until it is executed. */
  lemma ApproveIff(s: State, signer: Address, id: nat)
    ensures var r := Apply(s, ApproveRequest(signer, id));
            && (r.Ok? <==> && s.admin.Some? && (signer == s.admin.value || signer in s.signers)
                           && id in s.requests && !s.requests[id].executed && signer !in s.requests[id].approvals)
            && (r.Ok? ==>
                  r.value.state == s.(requests := s.requests[id
                                        := s.requests[id].(approvals := s.requests[id].approvals + [signer])]))
  {
  }

  /** A request is executed with enough approvals and cover, once; it lowers the balance of its asset by its amount. */
  lemma ExecuteIff(s: State, id: nat)
    ensures var r := Apply(s, ExecuteRequest(id));
            && (r.Ok? <==> && id in s.requests && !s.requests[id].executed
                           && |s.requests[id].approvals| >= s.threshold
                           && s.requests[id].amount <= At(s.balances, s.requests[id].asset))
            && (r.Ok? ==>
                  var q := s.requests[id];
                  && r.value.value == q.amount
                  && r.value.state == s.(balances := s.balances[q.asset := At(s.balances, q.asset) - q.amount],
                                         requests := s.requests[id := q.(executed := true)]))
  {
  }

  lemma {:induction false} WithoutMembers(signers: seq<Address>, a: Address, b: Address)
    requires Distinct(signers)
    ensures Distinct(Without(signers, a))
    ensures b in Without(signers, a) <==> b in signers && b != a
    ensures forall x :: x in Without(signers, a) ==> x in signers
  {
    if signers != [] {
      var rest := signers[1..];
      assert signers == [signers[0]] + rest;
      assert forall i, j :: 0 <= i < j < |rest| ==> rest[i] != rest[j];
      assert forall i :: 0 <= i < |rest| ==> signers[0] != rest[i];
      WithoutMembers(rest, a, b);
      if signers[0] != a {
        var less := Without(rest, a);
        assert forall i :: 0 <= i < |less| ==> less[i] in rest;
      }
    }
  }

  /** Whether someone is listed as a signer after a run: added, and not removed since. */
  function Listed(calls: seq<Call>, a: Address): bool {
    if calls == [] then false
    else
      var last := calls[|calls| - 1];
      if last == AddSigner(a) then true
      else if last == RemoveSigner(a) then false
      else Listed(calls[..|calls| - 1], a)
  }

  lemma StepSigners(s: State, c: Call, a: Address)
    requires Distinct(s.signers)
    ensures var t := Step(s, c);
            && Distinct(t.signers)
            && (a in t.signers <==> c == AddSigner(a) || (c != RemoveSigner(a) && a in s.signers))
  {
    hide SpendLimit, Without;
    match c
    case RemoveSigner(x) => WithoutMembers(s.signers, x, a);
    case _ =>
  }

  /** In every run the signers are those added and not removed since, each listed once. */
  lemma {:induction false} RunSigners(calls: seq<Call>, a: Address)
    ensures Distinct(Run(calls).signers)
    ensures a in Run(calls).signers <==> Listed(calls, a)
  {
    hide Step;
    if calls != [] {
      RunSigners(calls[..|calls| - 1], a);
      StepSigners(Run(calls[..|calls| - 1]), calls[|calls| - 1], a);
    }
  }
}
