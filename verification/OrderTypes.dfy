/** The order engine's records: commands, strategies, limits, and rows of `order_log`. */
module OrderTypes {
  import opened Prelude

  type OrderId = string

  /** `Blank` is the empty string: the zero value that a status write leaves out. */
  datatype Status = Blank | New | Partial | Filled | Canceled | Rejected | Unknown

  /** `Unset` stands for every stored mode other than the two valid ones. */
  datatype Mode = Testnet | Mainnet | Unset

  datatype Command = Command(strategy: string, symbol: string, side: string,
                             qty: real, price: real, markPrice: real, key: string)

  datatype Risk = Risk(maxPositionUsd: real, maxLeverage: real, dailyLossCapUsd: real)

  datatype Strategy = Strategy(user: string, live: bool, account: string, mode: Mode, risk: Option<Risk>)

  datatype Limits = Limits(maxOpenNotionalUsd: real, maxOpenPositions: int, maxDailyLossUsd: real)

  /** Venue metadata for one symbol. */
  datatype Meta = Meta(minNotionalUsd: real, qtyPrecision: int, pricePrecision: int)

  /** The status fields of an order: what an exchange reports, and what one status write carries. */
  datatype Fill = Fill(status: Status, exchangeId: string, filled: real, avgPrice: real)

  datatype Row = Row(user: string, strategy: string, account: string, symbol: string, mode: Mode,
                     qty: real, price: real, status: Status, exchangeId: string, filled: real, avgPrice: real)

  const DEFAULT_USER := "default"

  function UserOf(strat: Strategy): string {
    if strat.user == "" then DEFAULT_USER else strat.user
  }

  function Mark(cmd: Command): real {
    if cmd.markPrice == 0.0 then cmd.price else cmd.markPrice
  }

  function Notional(cmd: Command): real {
    cmd.qty * Mark(cmd)
  }

  predicate IsOpen(status: Status) {
    status == New || status == Partial
  }

  function FreshRow(cmd: Command, strat: Strategy): Row {
    Row(UserOf(strat), cmd.strategy, strat.account, cmd.symbol, strat.mode,
        cmd.qty, cmd.price, New, "", 0.0, 0.0)
  }

  /** A status write: zero-valued fields are not persisted. */
  function Patch(row: Row, f: Fill): Row {
    row.(status := if f.status != Blank then f.status else row.status,
         exchangeId := if f.exchangeId != "" then f.exchangeId else row.exchangeId,
         filled := if f.filled > 0.0 then f.filled else row.filled,
         avgPrice := if f.avgPrice > 0.0 then f.avgPrice else row.avgPrice)
  }

  const REJECTION := Fill(Rejected, "", 0.0, 0.0)
}
