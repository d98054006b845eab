/**
 * Delivery of an autonomous-chat response: which sends the message handler
 * performs for each shape of response and each outcome of the threaded send.
 */
module Delivery {
  import opened Wrappers

  /** The `thread_info` dict of a structured response; `event_id` may be absent or None. */
  datatype ThreadInfo = ThreadInfo(eventId: Option<string>)

  /**
   * What the autonomous-chat collaborator hands back: nothing (None, or an
   * exception it raised), a plain string (the older format), or a dict
   * whose `text` and `thread_info` keys may be absent or None.
   */
  datatype Response =
    | NoResponse
    | TextReply(body: string)
    | StructuredReply(text: Option<string>, threadInfo: Option<ThreadInfo>)

  /** One message sent to the room: plain, or as a reply in the thread of an event. */
  datatype Send = Plain(text: string) | Threaded(text: string, eventId: string)

  /** The text to send, when the response has a truthy one. */
  function ReplyText(r: Response): (t: Option<string>)
    ensures t.Some? ==> t.value != ""
    ensures t.None? <==>
              || r.NoResponse?
              || (r.TextReply? && r.body == "")
              || (r.StructuredReply? && (r.text.None? || r.text.value == ""))
  {
    match r
    case NoResponse => None
    case TextReply(s) => if s == "" then None else Some(s)
    case StructuredReply(text, _) => if text.Some? && text.value != "" then text else None
  }

  /** The event to reply to in a thread, when a dict response has a truthy `event_id`. */
  function ThreadAnchor(r: Response): (id: Option<string>)
    ensures id.Some? ==> r.StructuredReply? && id.value != ""
    ensures id.Some? <==>
              r.StructuredReply? && r.threadInfo.Some? && r.threadInfo.value.eventId.Some?
              && r.threadInfo.value.eventId.value != ""
  {
    match r
    case StructuredReply(_, Some(ThreadInfo(Some(id)))) => if id == "" then None else Some(id)
    case _ => None
  }

  /**
   * The sends performed, given whether the threaded send (when attempted)
   * reported success.
   */
  function Plan(r: Response, threadedOk: bool): (sends: seq<Send>)
    ensures sends == [] <==> ReplyText(r).None?
    ensures forall i :: 0 <= i < |sends| ==> ReplyText(r) == Some(sends[i].text)
    ensures |sends| <= 2
    ensures |sends| == 2 <==> ReplyText(r).Some? && ThreadAnchor(r).Some? && !threadedOk
    // only the first send can be threaded, and only towards the anchor
    ensures forall i :: 0 <= i < |sends| && sends[i].Threaded? ==>
              i == 0 && ThreadAnchor(r) == Some(sends[i].eventId)
  {
    match ReplyText(r)
    case None => []
    case Some(t) =>
      match ThreadAnchor(r)
      case None => [Plain(t)]
      case Some(id) => [Threaded(t, id)] + (if threadedOk then [] else [Plain(t)])
  }

  /** Texts of the plain sends, in order. */
  function PlainTexts(sends: seq<Send>): seq<string>
  {
    if sends == [] then []
    else (if sends[0].Plain? then [sends[0].text] else []) + PlainTexts(sends[1..])
  }

  /** Number of threaded sends. */
  function ThreadedCount(sends: seq<Send>): nat
  {
    if sends == [] then 0
    else (if sends[0].Threaded? then 1 else 0) + ThreadedCount(sends[1..])
  }

  /** A non-empty string response is sent once, as a plain message. */
  lemma StringResponseSentOnce(s: string, threadedOk: bool)
    requires s != ""
    ensures Plan(TextReply(s), threadedOk) == [Plain(s)]
  {
  }

  /**
   * A dict with text and a thread anchor is sent once in the thread, and once
   * more as a plain message of the same text exactly when threading failed.
   */
  lemma ThreadedFallback(text: string, id: string, threadedOk: bool)
    requires text != "" && id != ""
    ensures var sends := Plan(StructuredReply(Some(text), Some(ThreadInfo(Some(id)))), threadedOk);
            && sends[0] == Threaded(text, id)
            && ThreadedCount(sends) == 1
            && PlainTexts(sends) == (if threadedOk then [] else [text])
  {
    var sends := Plan(StructuredReply(Some(text), Some(ThreadInfo(Some(id)))), threadedOk);
    if threadedOk {
      assert sends == [Threaded(text, id)];
      assert sends[1..] == [];
    } else {
      assert sends == [Threaded(text, id), Plain(text)];
      assert sends[1..] == [Plain(text)];
      assert sends[1..][1..] == [];
      assert ThreadedCount(sends[1..]) == 0;
      assert PlainTexts(sends[1..]) == [text];
    }
  }

  /** A dict with text but no usable anchor is sent once, as a plain message. */
  lemma UnthreadedDictSentOnce(text: string, info: Option<ThreadInfo>, threadedOk: bool)
    requires text != ""
    requires info.Some? ==> info.value.eventId.None? || info.value.eventId.value == ""
    ensures Plan(StructuredReply(Some(text), info), threadedOk) == [Plain(text)]
  {
  }

  /** A dict without text, an empty string, or no response at all sends nothing. */
  lemma NoTextNoSend(r: Response, threadedOk: bool)
    requires r.NoResponse? || r == TextReply("") || (r.StructuredReply? && r.text in {None, Some("")})
    ensures Plan(r, threadedOk) == []
  {
  }
}
