/** Timing constants and enumerations of the matchmaking queue. */
module QueueEntry {
  const QUEUE_TTL_MS := 8_000
  const BOT_FALLBACK_MIN_MS := 30_000
  const BOT_FALLBACK_MAX_MS := 1_200_000
  const MATCHED_GRACE_MS := 30_000
  const MATCH_ACCEPT_TIMEOUT_MS := 20_000

  datatype Format = Tcg | Jtp | Edison
  datatype Mode = Ranked
  datatype Opponent = Human | Bot
  datatype Presence = Socket | Poll

  /** A pool key: candidates are only ever paired inside one key. */
  datatype PoolKey = PoolKey(format: Format, mode: Mode)

  const POOL_KEYS := [PoolKey(Tcg, Ranked), PoolKey(Jtp, Ranked), PoolKey(Edison, Ranked)]

  function ClampBotFallbackDelay(requestedMs: int): (r: int)
    ensures BOT_FALLBACK_MIN_MS <= r <= BOT_FALLBACK_MAX_MS
    ensures BOT_FALLBACK_MIN_MS <= requestedMs <= BOT_FALLBACK_MAX_MS ==> r == requestedMs
    ensures requestedMs < BOT_FALLBACK_MIN_MS ==> r == BOT_FALLBACK_MIN_MS
    ensures requestedMs > BOT_FALLBACK_MAX_MS ==> r == BOT_FALLBACK_MAX_MS
  {
    var raised := if requestedMs < BOT_FALLBACK_MIN_MS then BOT_FALLBACK_MIN_MS else requestedMs;
    if raised > BOT_FALLBACK_MAX_MS then BOT_FALLBACK_MAX_MS else raised
  }
}
