/** What a fee amounts to, which waiver counts, and who changes what, in the stored fields. */
module FeeRules {
  import opened Wrappers
  import opened Checked
  import opened Host
  import opened Sums
  import opened Bounded
  import opened Fee
  import opened FeeLaws

  // ---------------------------------------------------------------------------------------------
  // Amounts
  // ---------------------------------------------------------------------------------------------

  /** The share of an amount in basis points, rounded down. */
  predicate IsShare(x: int, amount: int, bps: int) {
    x * 10000 <= amount * bps < (x + 1) * 10000
  }

  lemma PortionMeans(amount: int, bps: int)
    requires 0 <= amount && 0 <= bps
    ensures Portion(amount, bps).Ok? <==> FitsI128(amount * bps)
    ensures Portion(amount, bps).Ok? ==> IsShare(Portion(amount, bps).value, amount, bps)
  {
    assert amount * bps >= 0;
    FloorBracket(amount * bps, 10000);
  }

  /** A percentage is that share of the base, a flat fee its amount, and a tiered fee the share of the last tier that
      the base reaches, or nothing when it reaches none. */
  lemma RawMeans(f: Structure, base: i128)
    requires base >= 0 && RawFee(f, base).Ok?
    ensures var raw := RawFee(f, base).value;
            match f.feeType
            case Percentage => f.amount >= 0 ==> IsShare(raw, base, f.amount)
            case Flat => raw == f.amount
            case Tiered =>
              if exists i :: 0 <= i < |f.tiers| && f.tiers[i].threshold <= base then
                exists i :: && 0 <= i < |f.tiers| && f.tiers[i].threshold <= base
                            && (forall k :: i < k < |f.tiers| ==> base < f.tiers[k].threshold)
                            && (f.tiers[i].bps >= 0 ==> IsShare(raw, base, f.tiers[i].bps))
              else raw == 0
  {
    hide Portion, IsShare;
    match f.feeType
    case Flat =>
    case Percentage =>
      if f.amount >= 0 {
        PortionMeans(base, f.amount);
      }
    case Tiered =>
      TierIsLast(f.tiers, |f.tiers|, base);
      var i := SelectTier(f.tiers, |f.tiers|, base);
      if i.Some? && f.tiers[i.value].bps >= 0 {
        PortionMeans(base, f.tiers[i.value].bps);
      }
  }

  /** What is left of a raw fee within zero, the base and the cap. */
  function Within(raw: int, base: int, cap: Option<i128>): int {
    var within := if raw < 0 then 0 else if raw > base then base else raw;
    if cap.Some? && 0 <= cap.value < within then cap.value else within
  }

  /** The fee on a base is nothing when waived, and otherwise the raw fee within zero, the base and the cap, less the
      discount, rounded down. */
  lemma FeeMeans(f: Structure, base: i128, discount: int, waived: bool)
    requires base >= 0 && 0 <= discount <= 10000 && FinalFee(f, base, discount, waived).Ok?
    ensures RawFee(f, base).Ok?
    ensures var fee, bounded := FinalFee(f, base, discount, waived).value, Within(RawFee(f, base).value, base, f.cap);
            && (waived ==> fee == 0)
            && (!waived && discount == 0 ==> fee == bounded)
            && (!waived ==> IsShare(fee, bounded, 10000 - discount))
  {
    hide RawFee, Portion, IsShare;
    var bounded := Within(RawFee(f, base).value, base, f.cap);
    if !waived {
      PortionMeans(bounded, 10000 - discount);
      WholeShare(bounded);
      if discount > 0 {
        SharePositive(Portion(bounded, 10000 - discount).value, bounded, 10000 - discount);
      }
    }
  }

  lemma WholeShare(x: int)
    ensures IsShare(x, x, 10000)
  {
  }

  lemma SharePositive(x: int, amount: int, bps: int)
    requires 0 <= amount && 0 <= bps && IsShare(x, amount, bps)
    ensures x >= 0
  {
    assert amount * bps >= 0;
  }

  // ---------------------------------------------------------------------------------------------
  // Waivers
  // ---------------------------------------------------------------------------------------------

  /** A waiver is for the payer or for the portfolio, and not expired. */
  predicate Applies(w: Waiver, now: u64, who: Address, portfolio: Symbol) {
    && (w.expiresAt == 0 || now < w.expiresAt)
    && (w.address == Some(who) || w.portfolio == Some(portfolio))
  }

  /** The first waiver in the list that applies counts; without one there is no discount. */
  lemma {:induction false} WaiverMeans(ws: seq<Waiver>, now: u64, who: Address, portfolio: Symbol)
    ensures if exists i :: 0 <= i < |ws| && Applies(ws[i], now, who, portfolio) then
              exists i :: && 0 <= i < |ws| && Applies(ws[i], now, who, portfolio)
                          && (forall k :: 0 <= k < i ==> !Applies(ws[k], now, who, portfolio))
                          && ResolveWaiver(ws, now, who, portfolio) == (ws[i].discount, ws[i].waived)
            else ResolveWaiver(ws, now, who, portfolio) == (0, false)
  {
    if ws != [] && !Applies(ws[0], now, who, portfolio) {
      var rest := ws[1..];
      WaiverMeans(rest, now, who, portfolio);
      assert forall i :: 0 <= i < |rest| ==> rest[i] == ws[i + 1];
      if exists i :: 0 <= i < |ws| && Applies(ws[i], now, who, portfolio) {
        var i :| 0 <= i < |ws| && Applies(ws[i], now, who, portfolio);
        assert Applies(rest[i - 1], now, who, portfolio);
        var j :| && 0 <= j < |rest| && Applies(rest[j], now, who, portfolio)
                 && (forall k :: 0 <= k < j ==> !Applies(rest[k], now, who, portfolio))
                 && ResolveWaiver(rest, now, who, portfolio) == (rest[j].discount, rest[j].waived);
        assert Applies(ws[j + 1], now, who, portfolio);
        forall k | 0 <= k < j + 1
          ensures !Applies(ws[k], now, who, portfolio)
        {
          assert k > 0 ==> ws[k] == rest[k - 1];
        }
      }
    }
  }

  /** A waiver takes the place of the first one for the same payer and portfolio, or joins the end. */
  lemma {:induction false} PutMeans(ws: seq<Waiver>, w: Waiver, i: nat)
    requires i <= |ws| && forall k :: 0 <= k < i ==> ws[k].address != w.address || ws[k].portfolio != w.portfolio
    requires i < |ws| ==> ws[i].address == w.address && ws[i].portfolio == w.portfolio
    ensures PutWaiver(ws, w) == if i < |ws| then ws[i := w] else ws + [w]
  {
    if i > 0 {
      PutMeans(ws[1..], w, i - 1);
      assert i < |ws| ==> ws[i := w] == [ws[0]] + ws[1..][i - 1 := w];
      assert i == |ws| ==> ws + [w] == [ws[0]] + (ws[1..] + [w]);
    } else if ws == [] {
      assert ws + [w] == [w];
    }
  }

  /** Removing waivers removes exactly those for the payer and the portfolio named. */
  lemma {:induction false} DropMeans(ws: seq<Waiver>, address: Option<Address>, portfolio: Option<Symbol>, w: Waiver)
    ensures w in DropWaivers(ws, address, portfolio)
            <==> w in ws && !(w.address == address && w.portfolio == portfolio)
  {
    if ws != [] {
      var init, last := ws[..|ws| - 1], ws[|ws| - 1];
      DropMeans(init, address, portfolio, w);
      assert ws == init + [last];
    }
  }

  // ---------------------------------------------------------------------------------------------
  // Calls
  // ---------------------------------------------------------------------------------------------

  /** A collection needs an active fee. It records who paid what, by which fee, for which portfolio and when, with the
      discount then resolved for the payer and the portfolio, and adds the fee to the three totals of that record. */
  lemma CollectMeans(s: State, now: u64, caller: Address, feeId: Symbol, portfolio: Symbol, base: i128)
    requires Collect(s, now, caller, feeId, portfolio, base).Ok?
    ensures feeId in s.structures && s.structures[feeId].active
    ensures var (t, r) := Collect(s, now, caller, feeId, portfolio, base).value;
            var (discount, waived) := ResolveWaiver(s.waivers, now, caller, portfolio);
            && FinalFee(s.structures[feeId], base, discount, waived) == Ok(r.fee)
            && r == Record(feeId, s.structures[feeId].category, portfolio, base, r.fee, discount, waived, now, caller)
            && t == s.(history := t.history, totalCollected := t.totalCollected, categoryTotals := t.categoryTotals,
                       portfolioTotals := t.portfolioTotals)
            && (|s.history| <= MAX_HISTORY ==> t.history == Last(s.history + [r], MAX_HISTORY))
            && t.totalCollected == WrapI128(s.totalCollected + r.fee)
            && (forall k :: At(t.categoryTotals, k)
                            == if k == r.category then WrapI128(At(s.categoryTotals, k) + r.fee)
                               else At(s.categoryTotals, k))
            && (forall k :: At(t.portfolioTotals, k)
                            == if k == portfolio then WrapI128(At(s.portfolioTotals, k) + r.fee)
                               else At(s.portfolioTotals, k))
  {
    hide FinalFee, ResolveWaiver, Split, WrapI128;
    var (t, r) := Collect(s, now, caller, feeId, portfolio, base).value;
    if |s.history| <= MAX_HISTORY {
      assert Last(s.history, MAX_HISTORY) == s.history;
      AppendLast(s.history, r, MAX_HISTORY);
    }
  }

  /** Only the administrator changes fees, waivers and recipients, and each only to something sound. */
  lemma AdministerIff(s: State, c: Call)
    requires !c.CollectFee?
    ensures Administer(s, c).Ok? <==>
              && c.caller == s.admin
              && (c.SetStructure? ==>
                    && (c.structure.feeType == Percentage ==> 0 <= c.structure.amount <= 10000)
                    && (c.structure.feeType == Flat ==> c.structure.amount >= 0)
                    && (c.structure.feeType == Tiered ==> |c.structure.tiers| > 0)
                    && (c.structure.cap.Some? ==> c.structure.cap.value >= 0))
              && (c.SetActive? || c.SetFeeCap? ==> c.feeId in s.structures)
              && (c.SetWaiver? ==> 0 <= c.waiver.discount <= 10000)
              && (c.SetRecipients? ==> |c.recipients| <= MAX_RECIPIENTS)
    ensures Administer(s, c).Ok? ==>
              var t := Administer(s, c).value;
              && t.history == s.history && t.totalCollected == s.totalCollected && t.admin == s.admin
              && t.categoryTotals == s.categoryTotals && t.portfolioTotals == s.portfolioTotals
              && (c.SetStructure? ==> t == s.(structures := s.structures[c.feeId := c.structure]))
              && (c.SetActive? ==>
                    t == s.(structures := s.structures[c.feeId := s.structures[c.feeId].(active := c.active)]))
              && (c.SetFeeCap? ==>
                    t == s.(structures := s.structures[c.feeId := s.structures[c.feeId].(cap := c.cap)]))
              && (c.SetRecipients? ==> t == s.(recipients := c.recipients))
              && (c.SetWaiver? || c.RemoveWaiver? ==> t == s.(waivers := t.waivers))
  {
    hide PutWaiver, DropWaivers;
  }
}
