/**
 The token-budget probe: renders a list of records into the summarisation
 query and decides whether the resulting request fits a token ceiling.
 The language model's token counter is the oracle `tokens`.
 */
module Budget {
  import opened Seqs
  import opened Records

  /** The fixed system prompts, kept opaque. */
  datatype Prompt = SummaryPrompt | MergePrompt

  /** A language-model session: a system prompt plus one user query. */
  datatype Session = Session(prompt: Prompt, query: string)

  /** Outcome of one probe: the session when it fits, too large, or the
      IndexError raised by reading the first message id of an empty list. */
  datatype Probe = Fits(session: Session) | TooLarge | EmptyIndexError

  /** Text put in front of the rendered records in the user query. */
  const QueryIntro: string := "需要你总结的聊天记录如下："

  /** What stands for the content: a bracketed type tag for images and voice. */
  function Shown(r: Record): (c: string)
    ensures r.msgType == ImageType || r.msgType == VoiceType ==> c == "[" + r.msgType + "]"
    ensures r.msgType != ImageType && r.msgType != VoiceType ==> c == r.content
  {
    if r.msgType in [ImageType, VoiceType] then "[" + r.msgType + "]" else r.content
  }

  /** The text one record contributes to the query. */
  function Piece(r: Record): string
  {
    "\n\n" + r.user + ": \"" + Shown(r) + "\"" + (if r.isTriggered != 0 then " <T>" else "")
  }

  /** The text the loop over `records[::-1]` builds: each record's piece, last record first. */
  function Encode(rs: seq<Record>): string
  {
    if |rs| == 0 then "" else Encode(rs[1..]) + Piece(rs[0])
  }

  /** The oldest record opens the rendered text and the newest closes it; only no records render as "". */
  lemma {:induction false} EncodeEnds(rs: seq<Record>)
    ensures Encode(rs) == "" <==> rs == []
    ensures rs != [] ==>
      var q, oldest, newest := Encode(rs), Piece(rs[|rs| - 1]), Piece(rs[0]);
      && |oldest| <= |q| && q[..|oldest|] == oldest
      && |newest| <= |q| && q[|q| - |newest|..] == newest
  {
    if |rs| > 1 {
      EncodeEnds(rs[1..]);
      assert rs[1..][|rs[1..]| - 1] == rs[|rs| - 1];
    }
  }

  /** The rendering reads the list back to front: oldest first, since the list is newest first. */
  lemma {:induction false} EncodeOldestFirst(rs: seq<Record>)
    ensures Encode(rs) == ConcatReversed(rs, Piece)
  {
    if |rs| > 0 {
      EncodeOldestFirst(rs[1..]);
      assert rs == [rs[0]] + rs[1..];
      ConcatReversedAppend([rs[0]], rs[1..], Piece);
      ConcatReversedSingle(rs[0], Piece);
    }
  }

  function UserQuery(rs: seq<Record>): string
  {
    QueryIntro + Encode(rs)
  }

  /** The session a probe of `rs` builds. */
  function SummarySession(rs: seq<Record>): Session
  {
    Session(SummaryPrompt, UserQuery(rs))
  }

  /** `_check_tokens`: the session when its token count is within the ceiling (inclusive). */
  function CheckTokens(rs: seq<Record>, maxTokens: int, tokens: string -> nat): (p: Probe)
    ensures p.EmptyIndexError? <==> rs == []
    ensures p.Fits? <==> rs != [] && tokens(UserQuery(rs)) <= maxTokens
    ensures p.Fits? ==> p.session == SummarySession(rs)
  {
    if |rs| == 0 then EmptyIndexError
    else if tokens(UserQuery(rs)) > maxTokens then TooLarge
    else Fits(SummarySession(rs))
  }

  /** One record's piece: the separator, the user, the quoted content, then ` <T>` iff triggered. */
  lemma PieceShape(r: Record)
    ensures var p := Piece(r);
      && p[..2] == "\n\n"
      && OccursAt(p, r.user + ": \"" + Shown(r) + "\"", 2)
      && (r.isTriggered != 0 <==> |p| == 2 + |r.user| + 4 + |Shown(r)| + 4)
      && (r.isTriggered != 0 ==> p[|p| - 4..] == " <T>")
      // an untriggered piece ends at the closing quote
      && (r.isTriggered == 0 ==> |p| == 2 + |r.user| + 4 + |Shown(r)|)
  {
  }

  /** Records added to the newest end of the list are rendered at the end of the text. */
  lemma EncodeAppend(newer: seq<Record>, older: seq<Record>)
    ensures Encode(newer + older) == Encode(older) + Encode(newer)
  {
    EncodeOldestFirst(newer + older);
    EncodeOldestFirst(newer);
    EncodeOldestFirst(older);
    ConcatReversedAppend(newer, older, Piece);
  }

  /** The rendering of a newest-first prefix is a suffix of the rendering of a longer prefix. */
  lemma {:induction false} EncodePrefix(rs: seq<Record>, i: nat, j: nat)
    requires i <= j <= |rs|
    ensures Encode(rs[..j]) == Encode(rs[i..j]) + Encode(rs[..i])
  {
    assert rs[..j] == rs[..i] + rs[i..j];
    EncodeAppend(rs[..i], rs[i..j]);
  }
}
