/** What an action costs, and the smallest amount of it that is worth committing to. */
module Economics {
  import opened Arithmetic

  /** Deployment settings the agent reads from its environment at start, with their bounds. */
  datatype Settings = Settings(
    marginBufferBps: nat,
    minTopUpUsdc: nat,
    minDeployUsdc: nat,
    baseTxGasUsdc: nat,
    bridgeCrossingUsdc: nat,
    payoffMultiple: nat,
    maxBreakevenDays: nat)
  {
    predicate Valid() {
      0 < marginBufferBps < BPS && payoffMultiple > 0 && maxBreakevenDays > 0
    }
  }

  const DEFAULT_SETTINGS := Settings(300, 5_000_000, 30_000_000, 10_000, 250_000, 10, 30)

  datatype CostedAction = Deploying | Unwinding | ToppingUp | Rebalancing

  /** Transactions, crossings and venue withdrawals an action commits to. */
  datatype Shape = Shape(baseTxs: nat, crossings: nat, withdrawals: nat)

  /** Percents are carried in hundred-thousandths, the scale `PercentOf` rounds them to. */
  datatype Frictions = Frictions(spotImpact: nat, spotGasUsdc: nat, withdrawalFeeUsdc: nat)

  datatype ActionCost = ActionCost(fixedUsdc: nat, variableUsdc: nat) {
    function Total(): nat { fixedUsdc + variableUsdc }
  }

  const SPOT_TAKER: nat := 10_000
  const PERP_TAKER: nat := 10_000

  function ShapeOf(action: CostedAction): Shape {
    match action
    case Deploying => Shape(5, 1, 0)
    case Unwinding => Shape(4, 1, 1)
    case ToppingUp => Shape(4, 1, 0)
    case Rebalancing => Shape(0, 0, 0)
  }

  function PercentOf(amount: nat, scaledPercent: nat): nat {
    amount * scaledPercent / 10_000_000
  }

  function CostOf(settings: Settings, action: CostedAction, notional: nat, frictions: Frictions): ActionCost {
    var shape := ShapeOf(action);
    var touchesSpot := shape.baseTxs > 0;
    var gas := settings.baseTxGasUsdc * shape.baseTxs + (if touchesSpot then frictions.spotGasUsdc else 0);
    var bridge := settings.bridgeCrossingUsdc * shape.crossings;
    var withdrawal := frictions.withdrawalFeeUsdc * shape.withdrawals;
    var taker := if touchesSpot then PERP_TAKER + SPOT_TAKER else PERP_TAKER;
    var impact := if touchesSpot then frictions.spotImpact else 0;
    ActionCost(gas + bridge + withdrawal, PercentOf(notional, taker + impact))
  }

  function EconomicFloor(settings: Settings, cost: ActionCost): nat {
    cost.fixedUsdc * Max(1, settings.payoffMultiple)
  }

  /**
   * Whether `cost` is recovered by funding within the longest horizon allowed: the exact-rational
   * form of cost / funding per hour <= days * 24. Funding that pays nothing never recovers it.
   */
  predicate PaysBack(settings: Settings, cost: nat, notional: nat, fundingPerHour: int) {
    && fundingPerHour > 0
    && notional > 0
    && PercentOf(notional, fundingPerHour) > 0
    && cost <= settings.maxBreakevenDays * 24 * PercentOf(notional, fundingPerHour)
  }

  /**
   * What each action commits to. A deployment, an unwind and a top-up pay for their transactions, one
   * crossing and the swap's gas, an unwind for the venue's withdrawal too; a rebalance pays the perp taker
   * alone.
   */
  lemma CostsAre(cfg: Settings, notional: nat, f: Frictions)
    ensures var swap := notional * (20_000 + f.spotImpact) / 10_000_000;
            && CostOf(cfg, Deploying, notional, f)
                 == ActionCost(5 * cfg.baseTxGasUsdc + f.spotGasUsdc + cfg.bridgeCrossingUsdc, swap)
            && CostOf(cfg, Unwinding, notional, f)
                 == ActionCost(
                   4 * cfg.baseTxGasUsdc + f.spotGasUsdc + cfg.bridgeCrossingUsdc + f.withdrawalFeeUsdc, swap)
            && CostOf(cfg, ToppingUp, notional, f)
                 == ActionCost(4 * cfg.baseTxGasUsdc + f.spotGasUsdc + cfg.bridgeCrossingUsdc, swap)
            && CostOf(cfg, Rebalancing, notional, f) == ActionCost(0, notional * 10_000 / 10_000_000)
  {
  }

  /** The floor does not move with the trade, so rounding a trade up to its floor reaches it. */
  lemma FloorIgnoresNotional(settings: Settings, action: CostedAction, a: nat, b: nat, frictions: Frictions)
    ensures EconomicFloor(settings, CostOf(settings, action, a, frictions))
         == EconomicFloor(settings, CostOf(settings, action, b, frictions))
  {
  }
}
