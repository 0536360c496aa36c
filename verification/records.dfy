/**
 The chat record as the store returns it: one row of `chat_records`
 `(sessionid, msgid, user, content, type, timestamp, is_triggered)`.
 */
module Records {

  datatype Record = Record(
    sessionId: string,
    msgId: int,
    user: string,
    content: string,
    msgType: string,    // the host's message type rendered as text, e.g. "TEXT", "IMAGE"
    timestamp: int,
    isTriggered: int    // stored as an integer flag; any non-zero value counts as set
  )

  /** The type tags whose content is replaced by a bracketed tag in the summary query. */
  const ImageType: string := "IMAGE"
  const VoiceType: string := "VOICE"

  /** The order the store hands records back in: newest first. */
  predicate SortedNewestFirst(rs: seq<Record>)
  {
    forall i, j :: 0 <= i < j < |rs| ==> rs[j].timestamp <= rs[i].timestamp
  }
}
