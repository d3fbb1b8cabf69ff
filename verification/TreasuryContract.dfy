/** The treasury's entry points over its stored entries. */
module TreasuryContract {
  import opened Wrappers
  import opened Checked
  import opened Host
  import opened Sums
  import opened Treasury

  /** Position i is the first occurrence of a signer, or the end. */
  lemma {:induction false} WithoutAt(signers: seq<Address>, a: Address, i: nat)
    requires i <= |signers| && (forall k :: 0 <= k < i ==> signers[k] != a) && (i < |signers| ==> signers[i] == a)
    ensures Without(signers, a) == if i < |signers| then signers[..i] + signers[i + 1..] else signers
  {
    if i > 0 {
      WithoutAt(signers[1..], a, i - 1);
      assert signers[..i] == [signers[0]] + signers[1..][..i - 1];
      assert i < |signers| ==> signers[i + 1..] == signers[1..][i..];
    }
  }

  class TreasuryStore {
    var admin: Option<Address>
    var signers: seq<Address>
    var maxSpendBps: nat
    var threshold: nat
    var balances: map<Symbol, int>
    var assets: seq<Symbol>
    var requests: map<nat, Request>
    var nextId: nat
    ghost var orphans: nat

    ghost function View(): State
      reads this
    {
      State(admin, signers, maxSpendBps, threshold, balances, assets, requests, nextId, orphans)
    }

    constructor ()
      ensures View() == EMPTY
    {
      admin, signers, maxSpendBps, threshold := None, [], 1000, 2;
      balances, assets, requests, nextId, orphans := map[], [], map[], 1, 0;
    }

    method Initialize(who: Address) returns (r: Result<int, Error>)
      modifies this
      ensures r == Answer(old(View()), Call.Initialize(who))
      ensures View() == Step(old(View()), Call.Initialize(who))
    {
      if admin.Some? {
        return Err(AlreadyInitialized);
      }
      orphans := if nextId > 0 then nextId - 1 else 0;
      admin, maxSpendBps, threshold, nextId := Some(who), 1000, 2, 1;
      return Ok(0);
    }

    method Configure(caller: Address, spendBps: nat, signatures: nat) returns (r: Result<int, Error>)
      modifies this`maxSpendBps, this`threshold
      ensures r == Answer(old(View()), Call.Configure(caller, spendBps, signatures))
      ensures View() == Step(old(View()), Call.Configure(caller, spendBps, signatures))
    {
      if admin.None? {
        return Err(NotInitialized);
      }
      if caller != admin.value {
        return Err(Unauthorized);
      }
      if signatures == 0 {
        return Err(InvalidConfig);
      }
      maxSpendBps, threshold := spendBps, signatures;
      return Ok(0);
    }

    method Deposit(asset: Symbol, amount: int) returns (r: Result<int, Error>)
      modifies this`balances, this`assets
      ensures r == Answer(old(View()), Call.Deposit(asset, amount))
      ensures View() == Step(old(View()), Call.Deposit(asset, amount))
    {
      if amount <= 0 {
        return Err(InvalidAmount);
      }
      var balance :- CheckedAdd(At(balances, asset), amount, InsufficientBalance);
      balances := balances[asset := balance];
      if asset !in assets {
        assets := assets + [asset];
      }
      return Ok(balance);
    }

    method CreateRequest(now: u64, recipient: Address, amount: int, asset: Symbol) returns (r: Result<int, Error>)
      modifies this`requests, this`nextId
      ensures r == Answer(old(View()), Call.CreateRequest(now, recipient, amount, asset))
      ensures View() == Step(old(View()), Call.CreateRequest(now, recipient, amount, asset))
    {
      if amount <= 0 {
        return Err(InvalidAmount);
      }
      var scaled :- CheckedMul(At(balances, asset), maxSpendBps, InsufficientBalance);
      if amount > TruncDiv(scaled, BPS) {
        return Err(ExceedsSpendLimit);
      }
      var id := nextId;
      requests := requests[id := Request(recipient, amount, asset, [], false, now)];
      nextId := id + 1;
      return Ok(id);
    }

    method ApproveRequest(signer: Address, id: nat) returns (r: Result<int, Error>)
      modifies this`requests
      ensures r == Answer(old(View()), Call.ApproveRequest(signer, id))
      ensures View() == Step(old(View()), Call.ApproveRequest(signer, id))
    {
      if admin.None? {
        return Err(NotASigner);
      }
      if signer !in signers && signer != admin.value {
        return Err(NotASigner);
      }
      if id !in requests {
        return Err(RequestNotFound);
      }
      var request := requests[id];
      if request.executed {
        return Err(AlreadyExecuted);
      }
      if signer in request.approvals {
        return Err(AlreadyApproved);
      }
      request := request.(approvals := request.approvals + [signer]);
      requests := requests[id := request];
      return Ok(|request.approvals|);
    }

    method ExecuteRequest(id: nat) returns (r: Result<int, Error>)
      modifies this`balances, this`requests
      ensures r == Answer(old(View()), Call.ExecuteRequest(id))
      ensures View() == Step(old(View()), Call.ExecuteRequest(id))
    {
      if id !in requests {
        return Err(RequestNotFound);
      }
      var request := requests[id];
      if request.executed {
        return Err(AlreadyExecuted);
      }
      if |request.approvals| < threshold {
        return Err(InsufficientApprovals);
      }
      var current := At(balances, request.asset);
      if request.amount > current {
        return Err(InsufficientBalance);
      }
      balances := balances[request.asset := current - request.amount];
      requests := requests[id := request.(executed := true)];
      return Ok(request.amount);
    }

    method AddSigner(signer: Address)
      modifies this`signers
      ensures View() == Step(old(View()), Call.AddSigner(signer))
    {
      if signer !in signers {
        signers := signers + [signer];
      }
    }

    method RemoveSigner(signer: Address)
      modifies this`signers
      ensures View() == Step(old(View()), Call.RemoveSigner(signer))
    {
      var i := 0;
      while i < |signers| && signers[i] != signer
        invariant i <= |signers| && signers == old(signers)
        invariant forall k :: 0 <= k < i ==> signers[k] != signer
      {
        i := i + 1;
      }
      WithoutAt(signers, signer, i);
      hide Without;
      if i < |signers| {
        signers := signers[..i] + signers[i + 1..];
      }
    }
  }
}
