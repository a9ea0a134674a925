/** What has happened to the calls of a registry. The contract does not store this;
    it is read off the run and is what the conservation laws talk about. */
module RegistryHistory {
  import opened Basics
  import opened Sums
  import opened RegistryState

  datatype History = History(
    // early-exit penalties left behind, by call and position
    forfeited: map<(nat, nat), int>,
    // stake taken back by early exits, by call and position
    withdrawn: map<(nat, nat), int>,
    // void and expiry refunds paid, by call and staker
    voidRefunds: map<nat, map<Address, int>>,
    expiredRefunds: map<nat, map<Address, int>>,
    // paid for shares, shares burned and number of redemptions, by call and outcome
    redeemed: map<nat, map<nat, int>>,
    burned: map<(nat, nat), int>,
    redemptions: map<(nat, nat), int>)

  const NoHistory := History(map[], map[], map[], map[], map[], map[], map[])

  /** An early exit in state s takes back the stake and leaves a penalty behind. */
  function ExitRecorded(s: Registry, h: History, staker: Address, id: nat, position: nat): History {
    var key, stake := (id, position), UserStake(s, id, staker, position);
    h.(forfeited := h.forfeited[key := Get(h.forfeited, key) + Penalty(stake)],
       withdrawn := h.withdrawn[key := Get(h.withdrawn, key) + stake - Penalty(stake)])
  }

  function VoidRefundRecorded(s: Registry, h: History, staker: Address, id: nat): History {
    h.(voidRefunds := h.voidRefunds[id := GetMap(h.voidRefunds, id)[staker := UserStakeUpTo(s, id, staker, 2)]])
  }

  function ExpiredRefundRecorded(s: Registry, h: History, staker: Address, id: nat): History
    requires id in s.calls
  {
    var refund := UserStakeUpTo(s, id, staker, s.calls[id].outcomeCount);
    h.(expiredRefunds := h.expiredRefunds[id := GetMap(h.expiredRefunds, id)[staker := refund]])
  }

  function RedemptionRecorded(s: Registry, h: History, redeemer: Address, id: nat): History
    requires id in s.calls
  {
    var w := s.calls[id].outcome;
    var paid := GetMap(h.redeemed, id);
    h.(redeemed := h.redeemed[id := paid[w := Get(paid, w) + RedemptionPayout(s, redeemer, id)]],
       burned := h.burned[(id, w) := Get(h.burned, (id, w)) + ShareBalance(s, id, w, redeemer)],
       redemptions := h.redemptions[(id, w) := Get(h.redemptions, (id, w)) + 1])
  }

  /** The history after a transaction that succeeded in state s. */
  function Recorded(s: Registry, h: History, op: Op): History {
    if op.OpWithdraw? then ExitRecorded(s, h, op.staker, op.call, op.position)
    else if op.OpVoidRefund? then VoidRefundRecorded(s, h, op.staker, op.call)
    else if op.OpExpiredRefund? && op.call in s.calls then ExpiredRefundRecorded(s, h, op.staker, op.call)
    else if op.OpRedeem? && op.call in s.calls then RedemptionRecorded(s, h, op.redeemer, op.call)
    else h
  }

  /** A registry together with what has happened to it. */
  datatype World = World(s: Registry, h: History)

  function Next(w: World, op: Op): World {
    match Execute(w.s, op)
    case Ok(s) => World(s, Recorded(w.s, w.h, op))
    case Err(_) => w
  }

  /** Any sequence of transactions, from first to last; refused ones change nothing. */
  function Run(w: World, ops: seq<Op>): World
    decreases |ops|
  {
    if ops == [] then w else Run(Next(w, ops[0]), ops[1..])
  }

  function Deployed(s: Registry): World {
    World(s, NoHistory)
  }

  /** Everything paid out against the pot of a call so far. */
  ghost function PotPaid(h: History, id: nat): int {
    Sum(GetMap(h.voidRefunds, id)) + Sum(GetMap(h.expiredRefunds, id)) + Sum(GetMap(h.redeemed, id))
  }
}
