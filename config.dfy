/** The constants of src/config.js that the game state uses. */
module Config {

  /** `ui.maxTickerEntries`: the ticker keeps at most this many entries. */
  const MaxTickerEntries: nat := 20

  /** `ui.maxHistoryEntries`: the round history keeps at most this many records. */
  const MaxHistoryEntries: nat := 50

  /** `intervals.strategyDuration`, in milliseconds: how long a strategy (and a round) lasts. */
  const StrategyDuration: nat := 60000
}
