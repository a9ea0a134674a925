/** Nobody who is owed money finds the escrow empty. */
module RegistryPayability {
  import opened Arithmetic
  import opened Basics
  import opened Sums
  import opened RegistryState
  import opened RegistryHistory
  import opened RegistryLedger
  import opened RegistryRefunds
  import opened RegistryRedemption
  import opened RegistryEscrow

  /** Only void refunds have been paid against the call. */
  ghost predicate OnlyVoidRefunds(h: History, id: nat) {
    GetMap(h.expiredRefunds, id) == map[] && GetMap(h.redeemed, id) == map[]
  }

  ghost predicate OnlyExpiredRefunds(h: History, id: nat) {
    GetMap(h.voidRefunds, id) == map[] && GetMap(h.redeemed, id) == map[]
  }

  /** Only one outcome has been redeemed, and nobody left it early. */
  ghost predicate OnlyRedemptionsOf(h: History, id: nat, outcome: nat) {
    && GetMap(h.voidRefunds, id) == map[] && GetMap(h.expiredRefunds, id) == map[]
    && GetMap(h.redeemed, id).Keys <= {outcome} && Get(h.withdrawn, (id, outcome)) == 0
  }

  /** The call has been paid out in one way only. */
  ghost predicate OneWayOut(h: History, id: nat) {
    OnlyVoidRefunds(h, id) || OnlyExpiredRefunds(h, id) || exists outcome :: OnlyRedemptionsOf(h, id, outcome)
  }

  lemma SumOfOne(m: map<nat, int>, k: nat)
    requires m.Keys <= {k}
    ensures Sum(m) == Get(m, k)
  {
    assert Sum<nat>(map[]) == 0;
    if k in m {
      assert m == map[k := m[k]];
      SumUpdate(map[], k, m[k]);
    } else {
      assert m == map[];
    }
  }

  lemma OnlyRedemptionsPaid(h: History, id: nat, outcome: nat)
    requires OnlyRedemptionsOf(h, id, outcome)
    ensures PotPaid(h, id) == Get(GetMap(h.redeemed, id), outcome)
  {
    SumOfOne(GetMap(h.redeemed, id), outcome);
    assert Sum<Address>(map[]) == 0;
  }

  lemma OnlyVoidRefundsPaid(h: History, id: nat)
    requires OnlyVoidRefunds(h, id)
    ensures PotPaid(h, id) == Sum(GetMap(h.voidRefunds, id))
  {
    assert Sum<Address>(map[]) == 0 && Sum<nat>(map[]) == 0;
  }

  lemma OnlyExpiredRefundsPaid(h: History, id: nat)
    requires OnlyExpiredRefunds(h, id)
    ensures PotPaid(h, id) == Sum(GetMap(h.expiredRefunds, id))
  {
    assert Sum<Address>(map[]) == 0 && Sum<nat>(map[]) == 0;
  }

  /** A call that has been paid out in one way only has not been overpaid. */
  lemma NoOverpayment(w: World, id: nat)
    requires Invariant(w) && id in w.s.calls && OneWayOut(w.h, id)
    ensures Debt(w, id) >= 0
  {
    hide Sum, Pot, PotPaid, Books, Claims, ShareBooks;
    RefundsWithinPot(w, id);
    if OnlyVoidRefunds(w.h, id) {
      OnlyVoidRefundsPaid(w.h, id);
    } else if OnlyExpiredRefunds(w.h, id) {
      OnlyExpiredRefundsPaid(w.h, id);
    } else {
      var outcome :| OnlyRedemptionsOf(w.h, id, outcome);
      OnlyRedemptionsPaid(w.h, id, outcome);
      RedemptionsWithinPot(w, id, outcome);
    }
  }

  /** The contract holds what it owes in the token, and none of its calls is overpaid. */
  ghost predicate Funded(w: World, token: Address) {
    && Held(w.s, token) >= Owed(w, token)
    && forall id :: id in w.s.calls && w.s.calls[id].stakeToken == token ==> OneWayOut(w.h, id)
  }

  /** The escrow then covers each single call's debt. */
  lemma EscrowCoversCall(w: World, id: nat)
    requires Invariant(w) && id in w.s.calls && Funded(w, w.s.calls[id].stakeToken)
    ensures Held(w.s, w.s.calls[id].stakeToken) >= Debt(w, id) >= 0
  {
    hide Sum, Debt, Books, Claims, ShareBooks, OneWayOut;
    var token := w.s.calls[id].stakeToken;
    var due := DueIn(Debts(w), Tokens(w.s), token);
    forall j | j in due ensures due[j] >= 0 {
      NoOverpayment(w, j);
    }
    NoOverpayment(w, id);
    SumBoundsEntry(due, id);
  }

  /** A staker of a voided call who has not been refunded is always paid: nothing but
      an overflow of the receiver's own balance can stop it. */
  lemma VoidRefundIsPaid(w: World, staker: Address, id: nat)
    requires Invariant(w) && id in w.s.calls && Funded(w, w.s.calls[id].stakeToken) && OnlyVoidRefunds(w.h, id)
    requires w.s.calls[id].voided && (id, staker) !in w.s.voidClaimed
    requires UserStakeUpTo(w.s, id, staker, 2) > 0
    ensures ClaimVoidRefund(w.s, staker, id).Ok? || ClaimVoidRefund(w.s, staker, id) == Err(Overflow)
  {
    hide Invariant, Funded, OnlyVoidRefunds, Debt, UserStakeUpTo;
    EscrowCoversCall(w, id);
    VoidRefundWithinDebt(w, staker, id);
    UnfoldsToTwo(w.s, id, staker);
  }

  lemma VoidRefundWithinDebt(w: World, staker: Address, id: nat)
    requires Invariant(w) && id in w.s.calls && OnlyVoidRefunds(w.h, id) && (id, staker) !in w.s.voidClaimed
    ensures UserStakeUpTo(w.s, id, staker, 2) <= Debt(w, id)
  {
    hide Sum, Pot, PotPaid, UserStakeUpTo;
    var refunds, refund := GetMap(w.h.voidRefunds, id), UserStakeUpTo(w.s, id, staker, 2);
    var refunds' := refunds[staker := refund];
    forall a | a in refunds' ensures refunds'[a] == UserStakeUpTo(w.s, id, a, 2) {
      if a != staker {
        assert VoidRefundOwed(w.s, id, a, refunds[a]);
      }
    }
    assert CallBalanced(w.h.forfeited, id, w.s.calls[id]);
    ListWithinPot(w, id, refunds', 2);
    assert staker !in refunds;
    SumUpdate(refunds, staker, refund);
    OnlyVoidRefundsPaid(w.h, id);
  }

  /** A holder of winning shares is always paid, if nobody left the outcome early and
      only that outcome has been redeemed. */
  lemma RedemptionIsPaid(w: World, redeemer: Address, id: nat)
    requires Invariant(w) && id in w.s.calls && Funded(w, w.s.calls[id].stakeToken)
    requires var c := w.s.calls[id];
      c.settled && c.hasShares && c.outcome > 0 && OnlyRedemptionsOf(w.h, id, c.outcome)
    requires ShareBalance(w.s, id, w.s.calls[id].outcome, redeemer) > 0
    ensures RedeemShares(w.s, redeemer, id).Ok? || RedeemShares(w.s, redeemer, id) == Err(Overflow)
  {
    hide Pot, PotPaid, Sum;
    EscrowCoversCall(w, id);
    RedemptionCoversShares(w, redeemer, id);
    RedemptionWithinDebt(w, redeemer, id);
  }

  lemma RedemptionWithinDebt(w: World, redeemer: Address, id: nat)
    requires Invariant(w) && id in w.s.calls
    requires var c := w.s.calls[id]; c.hasShares && c.outcome > 0 && OnlyRedemptionsOf(w.h, id, c.outcome)
    requires ShareBalance(w.s, id, w.s.calls[id].outcome, redeemer) > 0
    ensures RedemptionPayout(w.s, redeemer, id) <= Debt(w, id)
  {
    hide PotPaid, Pot, PotUpTo, Books, Claims, ShareBooks, ShareBookAt, Payout, Rounded;
    var c := w.s.calls[id];
    var p := c.outcome;
    var held := ShareBalance(w.s, id, p, redeemer);
    RedeemableBook(w, redeemer, id, p);
    PayoutRounds(Pot(c), Get(c.outcomeStakes, p), Get(w.h.burned, (id, p)), Redeemed(w, id, p),
                 Get(w.h.redemptions, (id, p)), held);
    RoundedWithinPot(Pot(c), Get(c.outcomeStakes, p), Get(w.h.burned, (id, p)) + held,
                     Redeemed(w, id, p) + Payout(held, Pot(c), Get(c.outcomeStakes, p)),
                     Get(w.h.redemptions, (id, p)) + 1);
    OnlyRedemptionsPaid(w.h, id, p);
  }

  /** The share book of an outcome nobody left early leaves room for what a holder has. */
  lemma RedeemableBook(w: World, holder: Address, id: nat, p: nat)
    requires Books(w) && ShareBooks(w) && id in w.s.calls && w.s.calls[id].hasShares
    requires Get(w.h.withdrawn, (id, p)) == 0 && ShareBalance(w.s, id, p, holder) > 0
    ensures var c, burned, count := w.s.calls[id], Get(w.h.burned, (id, p)), Get(w.h.redemptions, (id, p));
      && Pot(c) >= 0 && count >= 0 && (count == 0 ==> burned == 0 && Redeemed(w, id, p) == 0)
      && 0 < burned + ShareBalance(w.s, id, p, holder) <= Get(c.outcomeStakes, p)
      && Rounded(Pot(c), Get(c.outcomeStakes, p), burned, Redeemed(w, id, p), count)
  {
    hide Pot, Rounded;
    var c := w.s.calls[id];
    assert ShareBookAt(w, id, p) && CallBalanced(w.h.forfeited, id, c);
    SumBoundsEntry(GetMap(w.s.shares, (id, p)), holder);
    BalancedTotals(w.h.forfeited, id, c);
    PotNonNegative(c);
  }

  lemma PotNonNegative(c: Call)
    requires forall p: nat :: Get(c.outcomeStakes, p) >= 0
    ensures Pot(c) >= 0
  {
    PotGrows(c, 0, c.outcomeCount);
  }
}
