/** The replies the summarise command hands back to the host, their fixed texts,
    and what the language model answers to the plugin's own requests. */
module Replies {

  /** One language-model answer: the dict `reply_text` returns, with its three keys. */
  datatype LmReply = LmReply(totalTokens: int, completionTokens: int, content: string)

  datatype ReplyKind = TextReply | InfoReply | ErrorReply

  datatype Reply = Reply(kind: ReplyKind, text: string)

  /** How summarising ends: a reply, or an exception escaping the handler. */
  datatype Outcome = Replied(reply: Reply) | Raised

  const RateLimitedText: string := "我有些累了，请稍后再试"
  const NoRecordsText: string := "无聊天记录可供总结"
  const SummaryFailedText: string := "总结聊天记录失败"
  const MergeFailedText: string := "合并摘要失败，"
  const UnmergedText: string := "\n原始多段摘要如下：\n"

  function DigitChar(d: nat): char
    requires d < 10
  {
    "0123456789"[d]
  }

  predicate IsDigit(c: char)
  {
    '0' <= c <= '9'
  }

  /** Python's `f"{n}"` for a non-negative integer. */
  function Decimal(n: nat): (s: string)
    ensures |s| >= 1
    ensures forall i :: 0 <= i < |s| ==> IsDigit(s[i])
    // no leading zero: only 0 itself starts with the digit 0
    ensures s[0] == '0' <==> n == 0
    ensures |s| == 1 || s[0] != '0'
    decreases n
  {
    if n < 10 then [DigitChar(n)] else Decimal(n / 10) + [DigitChar(n % 10)]
  }

  /** The value of a string of decimal digits. */
  function DecimalValue(s: string): nat
    requires forall i :: 0 <= i < |s| ==> IsDigit(s[i])
  {
    if |s| == 0 then 0
    else
      assert IsDigit(s[|s| - 1]);
      10 * DecimalValue(s[..|s| - 1]) + ((s[|s| - 1] as int) - ('0' as int))
  }

  /** The count in a reply reads back as the count. */
  lemma {:induction false} DecimalRoundTrip(n: nat)
    ensures DecimalValue(Decimal(n)) == n
    decreases n
  {
    var s := Decimal(n);
    if n >= 10 {
      DecimalRoundTrip(n / 10);
      assert s[..|s| - 1] == Decimal(n / 10);
    }
  }

  const CountOpening: string := "本次总结了"
  const CountClosing: string := "条消息。\n\n"

  /** `f"本次总结了{count}条消息。\n\n"`, the line in front of a summary. */
  function CountLine(count: nat): (c: string)
    ensures |CountOpening| + |CountClosing| < |c|
    ensures c[..|CountOpening|] == CountOpening && c[|c| - |CountClosing|..] == CountClosing
    // what lies between the fixed words is digits that read back as the count
    ensures var digits := c[|CountOpening|..|c| - |CountClosing|];
      && (forall i :: 0 <= i < |digits| ==> IsDigit(digits[i]))
      && (|digits| == 1 || digits[0] != '0')
      && DecimalValue(digits) == count
  {
    var c := CountOpening + Decimal(count) + CountClosing;
    DecimalRoundTrip(count);
    assert c[|CountOpening|..|c| - |CountClosing|] == Decimal(count);
    c
  }
}
