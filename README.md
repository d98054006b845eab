# Matrix bot event handlers — a Dafny model

A model of the decision logic of the bot's entry script (`main.py`): a
Matrix chat bot that filters stale messages, forwards fresh ones to an
autonomous-conversation module and a URL processor, and logs membership
events. The model covers:

- **Stale-message filter** (`Staleness`). The ordered checks at the head of
  the message handler: no server timestamp, older than process start, older
  than 5 minutes while the initial sync is running, older than 1 hour.
  Times are integer milliseconds.
- **Initial-sync latch and the message handler** (`MatrixBot`). The class
  `Bot` holds the bot's user id, its start time and the
  `INITIAL_SYNC_COMPLETE` flag. `OnReady` sets the flag. `OnMessage` runs
  the filter, the self-sender check, the delivery of the autonomous-chat
  response and URL extraction, and returns what it did. `SyncFlagAfter`
  gives the flag after any sequence of dispatched events.
- **URL extraction** (`UrlExtraction`). The first token of Python's
  `body.split()` that starts with `http://` or `https://`. `Split` follows
  Python's `str.isspace()` separator set.
- **Response delivery** (`Delivery`). The sends performed for a string
  response, a dict response with or without a thread anchor, and no
  response. The threaded send's success is an input.
- **Membership classification** (`Membership`). The priority table that
  maps a `m.room.member` event to a description. `Describe` renders the
  exact log text.

Time: the handler compares `datetime` values with microsecond precision,
while the server timestamp is whole milliseconds. The model reads the start
time and the current time in milliseconds rounded up. For an integer `t`
and a real `x`, `t < x` holds exactly when `t < ceil(x)`, and `x - t > w`
holds exactly when `ceil(x) - t > w`. So the model takes the same decisions
as the code.

For a dict lookup without a default, a value that is Python `None` and a
missing key both give `None` in the model. A `None` event attribute and a
missing one read with a `None` default are treated the same way. Dict lookups with defaults (`content.get('displayname', state_key)`)
are written out with their defaults. The exceptions are listed under
"Left out".

## Model

| member | source | states |
|---|---|---|
| Staleness.Check | main.py:199-232 | Characterises each verdict apart from the order of the checks. No timestamp exactly when it is missing or 0. Before-startup exactly when a timestamp exists and is earlier than the start time. Fresh exactly when the event is at or after startup and its age is within the window in force (300 s before sync, 3600 s after). The 5-minute rule fires only before sync; the 1-hour rule fires only after sync. |
| Staleness.MissingTimestampDiscards | main.py:211-213 | A missing or zero timestamp is discarded whatever the clock and the flag. |
| Staleness.BeforeStartupDiscards | main.py:216-218 | A timestamp earlier than the start time is discarded whatever the clock and the flag. |
| Staleness.DuringSyncWindow | main.py:221-232 | Before sync, an event at or after startup is accepted exactly when it is at most 300 s old. The 1-hour rule never fires then. |
| Staleness.AfterSyncWindow | main.py:229-232 | After sync, an event at or after startup is accepted exactly when it is at most 3600 s old. |
| Staleness.FutureEventAccepted | main.py:221-232 | An event stamped after `now` (negative age) and at or after startup passes the time checks. |
| Staleness.SyncOnlyWidens | main.py:221-232 | An event accepted before sync is also accepted after sync with the same clock. |
| Staleness.StaleStaysStale | main.py:216-232 | An event discarded at time `now` is still discarded at any later time. |
| UrlExtraction.Split | main.py:282 | Every token of `body.split()` is non-empty and contains no whitespace. |
| UrlExtraction.FirstUrlIndex | main.py:282 | Returns the index of a token with an `http://` or `https://` prefix, with no such token before it. Returns none exactly when no token has the prefix. |
| UrlExtraction.ExtractUrl | main.py:282-285 | The URL is a whitespace-free token of the body with the scheme prefix, and no earlier token has the prefix. It is none, so nothing is forwarded, exactly when no token has the prefix. |
| UrlExtraction.SplitKeepsContent | main.py:282 | Splitting drops only whitespace: the tokens joined hold every non-whitespace character of the body, in order. |
| UrlExtraction.SplitAtSpace | main.py:282 | Any whitespace character separates tokens: splitting `a + c + b` at a whitespace `c` gives the split of `a` followed by the split of `b`. With SplitJoin's one-token case this fixes the split of every string. |
| UrlExtraction.SplitJoin | main.py:282 | Splitting undoes `" ".join` of whitespace-free tokens. |
| UrlExtraction.ExampleBody | main.py:282 | `"check this out https://example.com/paper thanks"` yields exactly `"https://example.com/paper"`. |
| Delivery.ReplyText | main.py:242-257 | The text to send is non-empty. It is absent exactly for no response, an empty string, or a dict whose `text` is missing, None or empty. |
| Delivery.ThreadAnchor | main.py:252-258 | A thread anchor exists exactly for a dict response whose `thread_info.event_id` is present and non-empty. |
| Delivery.Plan | main.py:240-273 | Nothing is sent exactly when there is no text. Every send carries that text. At most two sends are made. Two are made exactly when a threaded send was attempted and failed. Only the first send can be threaded, and only to the anchor. |
| Delivery.StringResponseSentOnce | main.py:245-248 | A non-empty string response gives exactly one plain send of that string. |
| Delivery.ThreadedFallback | main.py:258-269 | A dict with text and an anchor gives one threaded send. It also gives one plain send of the same text exactly when threading failed. |
| Delivery.UnthreadedDictSentOnce | main.py:257-273 | A dict with text but no usable `event_id` gives exactly one plain send. |
| Delivery.NoTextNoSend | main.py:242-257 | No response, an empty string, or a dict without text produces no send. |
| Membership.Classify | main.py:326-354 | A membership case is reported exactly when the membership changed. Among those cases, a change to `invite` gives "invited by sender" and a change to `ban` gives "banned by sender". Any other value that is not `join` or `leave` gives "membership changed to" that value. Removal, invitation and ban name the event's sender. A display-name change is reported exactly when membership is unchanged and the old and new names are both non-empty and differ; it carries both names, with the new name defaulting to the state key and the old to `''`. An avatar change is reported exactly when neither of those applies and `avatar_url` differs. "Updated their profile" covers the rest. |
| Membership.JoinCases | main.py:333-337 | A change to `join` is "accepted invitation" exactly when the previous membership was `invite`, and "joined" otherwise. |
| Membership.LeaveCases | main.py:338-342 | A change to `leave` is "left" when the sender is the member, and "removed by sender" otherwise. |
| Membership.InviteBanOther | main.py:343-348 | A membership change to anything but `join` or `leave` gives "invited by sender" for `invite`, "banned by sender" for `ban`, and "membership changed to" the new value otherwise. |
| Membership.FirstNameNotAChange | main.py:328-350 | A name set when the old one is absent or empty is never reported as a display-name change. |
| Membership.UnchangedIsProfileUpdate | main.py:326-354 | An event whose content equals its previous content is reported as a profile update. |
| Membership.Describe | main.py:335-354 | Gives the logged description of each case, with `None` rendered as "None". The case can always be read back from the text. |
| Membership.DistinctCasesDistinctDescriptions | main.py:332-354 | Changes of different cases never get the same description. |
| MatrixBot.SyncFlagIffReady | main.py:115-125 | After any sequence of dispatched events, the sync flag is set exactly when a "ready" event was among them. |
| MatrixBot.SyncFlagStaysSet | main.py:115-125 | Once set, the flag stays set whatever is dispatched next. |
| MatrixBot.Bot.constructor | main.py:59-63 | The bot starts with its user id, its start time, and the flag unset. |
| MatrixBot.Bot.OnReady | main.py:115-125 | The "ready" handler sets the flag and never clears it. |
| MatrixBot.Bot.OnMessage | main.py:198-285 | A message is filtered exactly when the time checks do not pass, and the reason is the filter's verdict. A fresh message from the bot's own user id is dropped and never reaches autonomous chat or URL processing. Otherwise the sends are the delivery plan of the response and the forwarded URL is the extracted one. |

## Left out

- Logging configuration and rotation (main.py:21-54), and every log line the handlers write, including the chat logger's records (main.py:189, 289-308, 356-363). These are side effects with no decision in them.
- The SDK client, module mounting, the arXiv auto-poster setup, handler registration and `bot.run` (main.py:65-113, 383). These belong to foreign libraries.
- `on_command` (main.py:137-153) and `on_command_error` (main.py:155-167). They only log, or send a fixed apology with a formatted wall-clock time.
- The background tasks started by `on_ready` and `arxiv_maintenance_task` (main.py:128-135, 365-381). Their unbounded sleep loops produce no result.
- The autonomous-chat collaborator, the threaded-send helper and `process_url`. Their code is not part of this model. Their results are inputs: the response and the threaded-send success flag. An exception raised by `handle_message` behaves like no response. Whether `process_url` succeeds affects only logging.
- Delivery.Plan: does not model an exception raised by a send. In the code such an exception skips any remaining sends, including the plain fallback, and URL extraction still runs.
- Staleness.Check: treats a `server_timestamp` that is present but `None` like a missing one. In the code that value makes line 199 raise before the check at line 211. The handler then stops as well, so nothing is processed either way.
- Membership.Classify: reads a `content` or `prev_content` attribute that is present but `None` as an empty dict. In the code, `.get` on `None` raises at main.py:326-327, so such an event is not classified or logged at all.
- Staleness.Check: does not model timestamps too large or too small for `datetime.fromtimestamp`, which would raise.
