/**
 * The bot's process-wide state and its message handler: the startup time,
 * the bot's own user id, and the initial-sync latch that the "ready" event
 * sets.
 */
module MatrixBot {
  import opened Wrappers
  import opened Staleness
  import opened UrlExtraction
  import opened Delivery

  /** What the message handler does with one message. */
  datatype Handling =
    | Filtered(reason: Verdict)                      // discarded as stale
    | OwnMessage                                     // fresh, but sent by the bot itself
    | Processed(sends: seq<Send>, url: Option<string>)  // replied to, and the URL handed to URL processing

  /** The events the host SDK dispatches to the handlers. */
  datatype Dispatch = ReadyEvent | MessageEvent | MemberEvent | CommandEvent

  /** The sync flag after one more dispatched event: only "ready" sets it, nothing clears it. */
  function Latch(flag: bool, e: Dispatch): bool
  {
    flag || e == ReadyEvent
  }

  /** The sync flag after the given events, starting from `false` at process start. */
  function SyncFlagAfter(events: seq<Dispatch>): bool
  {
    if events == [] then false else Latch(SyncFlagAfter(events[..|events| - 1]), events[|events| - 1])
  }

  /** The flag is set exactly when a "ready" event has been dispatched. */
  lemma {:induction false} SyncFlagIffReady(events: seq<Dispatch>)
    ensures SyncFlagAfter(events) <==> ReadyEvent in events
  {
    if events != [] {
      var init := events[..|events| - 1];
      SyncFlagIffReady(init);
      assert events == init + [events[|events| - 1]];
    }
  }

  /** Once set, the flag stays set whatever is dispatched next. */
  lemma SyncFlagStaysSet(events: seq<Dispatch>, more: seq<Dispatch>)
    ensures SyncFlagAfter(events) ==> SyncFlagAfter(events + more)
  {
    SyncFlagIffReady(events);
    SyncFlagIffReady(events + more);
  }

  class Bot {
    /** `bot_config.USER_ID`. */
    const userId: string
    /** `BOT_STARTUP_TIME`, in milliseconds. */
    const startupTime: int
    /** `INITIAL_SYNC_COMPLETE`. */
    var initialSyncComplete: bool

    constructor (userId: string, startupTime: int)
      ensures this.userId == userId && this.startupTime == startupTime
      ensures initialSyncComplete == SyncFlagAfter([])
    {
      this.userId := userId;
      this.startupTime := startupTime;
      initialSyncComplete := false;
    }

    /** The "ready" handler: marks the initial sync complete. */
    method OnReady()
      modifies this`initialSyncComplete
      ensures initialSyncComplete
      ensures initialSyncComplete == Latch(old(initialSyncComplete), ReadyEvent)
    {
      initialSyncComplete := true;
    }

    /**
     * The message handler after logging: the stale-message checks, the
     * self-sender check, delivery of the autonomous-chat response, and URL
     * extraction. `now` is the clock read by the handler, `response` what
     * the autonomous-chat collaborator returned and `threadedOk` what the
     * threaded send reported.
     */
    method OnMessage(sender: string, body: string, serverTs: Option<int>, now: int,
                     response: Response, threadedOk: bool) returns (h: Handling)
      ensures h.Filtered? <==> Check(serverTs, now, startupTime, initialSyncComplete) != Fresh
      ensures h.Filtered? ==> h.reason == Check(serverTs, now, startupTime, initialSyncComplete)
      ensures h.OwnMessage? <==>
                Check(serverTs, now, startupTime, initialSyncComplete) == Fresh && sender == userId
      // the bot's own messages never reach autonomous chat or URL processing
      ensures sender == userId ==> !h.Processed?
      ensures h.Processed? ==> h.sends == Plan(response, threadedOk) && h.url == ExtractUrl(body)
    {
      var verdict := Check(serverTs, now, startupTime, initialSyncComplete);
      if verdict != Fresh {
        return Filtered(verdict);
      }
      if sender == userId {
        return OwnMessage;
      }

      var sends: seq<Send> := [];
      match response {
        case NoResponse =>
        case TextReply(s) =>
          if s != "" {
            sends := sends + [Plain(s)];
          }
        case StructuredReply(text, threadInfo) =>
          if text.Some? && text.value != "" {
            var t := text.value;
            if threadInfo.Some? && threadInfo.value.eventId.Some? && threadInfo.value.eventId.value != "" {
              sends := sends + [Threaded(t, threadInfo.value.eventId.value)];
              if !threadedOk {
                sends := sends + [Plain(t)];
              }
            } else {
              sends := sends + [Plain(t)];
            }
          }
      }

      var url := ExtractUrl(body);
      h := Processed(sends, url);
    }
  }
}
