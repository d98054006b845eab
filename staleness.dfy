/**
 * The stale-message filter at the head of the bot's message handler.
 *
 * All times are integer milliseconds since the Unix epoch. The server
 * timestamp of a Matrix event is already in milliseconds. The process start
 * time and the current time are the handler's clock in milliseconds, rounded
 * up. For a whole number of milliseconds `t`, `t < x` holds exactly when
 * `t < ceil(x)`, and `x - t > w` holds exactly when `ceil(x) - t > w`. So
 * comparing these values gives the same decisions as comparing the handler's
 * `datetime` values.
 */
module Staleness {
  import opened Wrappers

  /** Largest age accepted while the initial sync is still running (300 s). */
  const SyncWindowMs: int := 300 * 1000

  /** Largest age accepted at any time, the fallback window (3600 s). */
  const FallbackWindowMs: int := 3600 * 1000

  /** Outcome of the filter: the first rule that discards, or Fresh. */
  datatype Verdict =
    | NoTimestamp              // missing, None or 0 server timestamp
    | BeforeStartup            // stamped before the process started
    | OlderThanSyncWindow      // older than 5 minutes during the initial sync
    | OlderThanFallbackWindow  // older than 1 hour
    | Fresh                    // passes every time check

  /** Python truthiness of the `server_timestamp` attribute. */
  predicate HasTimestamp(serverTs: Option<int>)
  {
    serverTs.Some? && serverTs.value != 0
  }

  /** The window that is in force for the given state of the sync flag. */
  function Window(syncComplete: bool): int
  {
    if syncComplete then FallbackWindowMs else SyncWindowMs
  }

  /**
   * The first-match-wins chain of checks. The contract characterises each
   * outcome without reference to the order of the checks.
   */
  function Check(serverTs: Option<int>, now: int, startup: int, syncComplete: bool): (v: Verdict)
    ensures v == NoTimestamp <==> !HasTimestamp(serverTs)
    ensures v == BeforeStartup <==> HasTimestamp(serverTs) && serverTs.value < startup
    ensures v == Fresh <==>
              HasTimestamp(serverTs) && startup <= serverTs.value
              && now - serverTs.value <= Window(syncComplete)
    ensures v == OlderThanSyncWindow ==> !syncComplete
    // the one-hour check can never be the one that fires during the initial sync
    ensures v == OlderThanFallbackWindow ==> syncComplete
  {
    if !HasTimestamp(serverTs) then NoTimestamp
    else
      var t := serverTs.value;
      if t < startup then BeforeStartup
      else if !syncComplete && now - t > SyncWindowMs then OlderThanSyncWindow
      else if now - t > FallbackWindowMs then OlderThanFallbackWindow
      else Fresh
  }

  /** A missing or zero timestamp discards, whatever the clock or the flag. */
  lemma MissingTimestampDiscards(serverTs: Option<int>, now: int, startup: int, syncComplete: bool)
    requires serverTs == None || serverTs == Some(0)
    ensures Check(serverTs, now, startup, syncComplete) == NoTimestamp
  {
  }

  /** An event stamped before the process started is always discarded. */
  lemma BeforeStartupDiscards(t: int, now: int, startup: int, syncComplete: bool)
    requires t != 0 && t < startup
    ensures Check(Some(t), now, startup, syncComplete) == BeforeStartup
  {
  }

  /** During the initial sync: accepted exactly when at most 300 s old; never by the 1-hour rule. */
  lemma DuringSyncWindow(t: int, now: int, startup: int)
    requires t != 0 && startup <= t
    ensures Check(Some(t), now, startup, false) == Fresh <==> now - t <= 300 * 1000
    ensures Check(Some(t), now, startup, false) != OlderThanFallbackWindow
  {
  }

  /** After the initial sync: accepted exactly when at most 3600 s old. */
  lemma AfterSyncWindow(t: int, now: int, startup: int)
    requires t != 0 && startup <= t
    ensures Check(Some(t), now, startup, true) == Fresh <==> now - t <= 3600 * 1000
  {
  }

  /** An event stamped in the future (negative age) passes the time checks. */
  lemma FutureEventAccepted(t: int, now: int, startup: int, syncComplete: bool)
    requires t != 0 && startup <= t && now < t
    ensures Check(Some(t), now, startup, syncComplete) == Fresh
  {
  }

  /** Completing the sync only widens the window: what passes before also passes after. */
  lemma SyncOnlyWidens(serverTs: Option<int>, now: int, startup: int)
    ensures Check(serverTs, now, startup, false) == Fresh ==> Check(serverTs, now, startup, true) == Fresh
  {
  }

  /** Waiting never revives a stale event: a later clock keeps it discarded. */
  lemma StaleStaysStale(serverTs: Option<int>, now: int, later: int, startup: int, syncComplete: bool)
    requires now <= later
    ensures Check(serverTs, now, startup, syncComplete) != Fresh ==>
              Check(serverTs, later, startup, syncComplete) != Fresh
  {
  }
}
