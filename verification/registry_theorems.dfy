/** What holds in every state that any run of transactions can reach from a fresh
    deployment, spelled out without the invariants behind it. */
module RegistryTheorems {
  import opened Basics
  import opened Sums
  import opened RegistryState
  import opened RegistryHistory
  import opened RegistryLedger
  import opened RegistryRefunds
  import opened RegistryRedemption
  import opened RegistryEscrow

  lemma EveryRunKeepsInvariant(s0: Registry, ops: seq<Op>)
    requires Fresh(s0)
    ensures Invariant(Run(Deployed(s0), ops))
  {
    hide Invariant, Run;
    DeployedInvariant(s0);
    RunKeepsInvariant(Deployed(s0), ops);
  }

  /** The three books of stakes: for every call, position and user the record equals the
      call's entry, and the position total is the sum of the entries and of the penalties
      left there. */
  lemma LedgersInEveryRun(s0: Registry, ops: seq<Op>, id: nat, p: nat, user: Address)
    requires Fresh(s0) && id in Run(Deployed(s0), ops).s.calls
    ensures var w := Run(Deployed(s0), ops);
      var c := w.s.calls[id];
      && UserStake(w.s, id, user, p) == Get(GetMap(c.stakes, p), user) >= 0
      && Get(c.outcomeStakes, p) == Sum(GetMap(c.stakes, p)) + Get(w.h.forfeited, (id, p))
  {
    hide Run, Claims, ShareBooks;
    EveryRunKeepsInvariant(s0, ops);
    var w := Run(Deployed(s0), ops);
    assert CallBalanced(w.h.forfeited, id, w.s.calls[id]);
  }

  /** Refunds: nobody is paid anything but the stake on record, and no kind of refund
      adds up to more than the pot. */
  lemma RefundsInEveryRun(s0: Registry, ops: seq<Op>, id: nat, user: Address)
    requires Fresh(s0) && id in Run(Deployed(s0), ops).s.calls
    ensures var w := Run(Deployed(s0), ops);
      && Sum(GetMap(w.h.voidRefunds, id)) <= Pot(w.s.calls[id])
      && Sum(GetMap(w.h.expiredRefunds, id)) <= Pot(w.s.calls[id])
      && ((id, user) in w.s.voidClaimed <==> user in GetMap(w.h.voidRefunds, id))
      && (user in GetMap(w.h.voidRefunds, id)
          ==> GetMap(w.h.voidRefunds, id)[user] == UserStakeUpTo(w.s, id, user, 2))
      && ((id, user) in w.s.expiredClaimed <==> user in GetMap(w.h.expiredRefunds, id))
      && (user in GetMap(w.h.expiredRefunds, id)
          ==> GetMap(w.h.expiredRefunds, id)[user] == UserStakeUpTo(w.s, id, user, w.s.calls[id].outcomeCount))
  {
    hide Run, Books, ShareBooks, Pot, UserStakeUpTo, Fresh;
    EveryRunKeepsInvariant(s0, ops);
    var w := Run(Deployed(s0), ops);
    RefundsWithinPot(w, id);
    assert user in GetMap(w.h.expiredRefunds, id)
           ==> ExpiredRefundOwed(w.s, id, user, GetMap(w.h.expiredRefunds, id)[user]);
  }

  /** Redemption conserves the pot: without early exits from an outcome its redemptions
      stay within the pot of the call, and once all its shares are burned less than one
      unit for each redemption is left. */
  lemma RedemptionsInEveryRun(s0: Registry, ops: seq<Op>, id: nat, outcome: nat)
    requires Fresh(s0) && id in Run(Deployed(s0), ops).s.calls
    requires Get(Run(Deployed(s0), ops).h.withdrawn, (id, outcome)) == 0
    ensures var w := Run(Deployed(s0), ops);
      var c := w.s.calls[id];
      && Redeemed(w, id, outcome) <= Pot(c)
      && (c.hasShares && Get(c.outcomeStakes, outcome) > 0 && Sum(GetMap(w.s.shares, (id, outcome))) == 0
          ==> Pot(c) - Redeemed(w, id, outcome) < Get(w.h.redemptions, (id, outcome)))
  {
    hide Run, Books, Claims, ShareBooks, Pot, Redeemed;
    EveryRunKeepsInvariant(s0, ops);
    var w := Run(Deployed(s0), ops);
    RedemptionsWithinPot(w, id, outcome);
    var c := w.s.calls[id];
    if c.hasShares && Get(c.outcomeStakes, outcome) > 0 && Sum(GetMap(w.s.shares, (id, outcome))) == 0 {
      RegistryRedemption.DustIsBounded(w, id, outcome);
    }
  }

  /** Conservation of escrowed tokens, unbacked payments included: the balance is what was
      there at deployment, plus what the pots owe, plus the gains of the run. */
  lemma EscrowInEveryRun(s0: Registry, ops: seq<Op>, token: Address)
    requires Fresh(s0)
    ensures var w := Run(Deployed(s0), ops);
      Held(w.s, token) == Held(s0, token) + Owed(w, token) + TotalGain(Deployed(s0), ops, token)
  {
    hide Run, Invariant, Held, TotalGain;
    DeployedInvariant(s0);
    RunGain(Deployed(s0), ops, token);
    assert DueIn(Debts(Deployed(s0)), Tokens(s0), token) == map[];
  }
}
