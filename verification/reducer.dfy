/**
 The end of the summarise command (lines 300-353): strip markers, stop when
 fewer than two records remain, split into batch summaries, then return the
 single summary or ask the language model to merge several.
 */
module Reducer {
  import opened Wrappers
  import opened Seqs
  import opened Records
  import opened Budget
  import opened Splitter
  import opened Replies
  import Marker
  import Command

  /** The token ceiling per batch request and the cap on batch requests the command uses. */
  const SessionBudget: int := 4800
  const MaxSummarys: int := 8

  /** What follows every summary in the merge query. */
  const Divider: string := "\n----------------\n\n"

  function Divided(s: string): string
  {
    s + Divider
  }

  /** Lines 334-336: the summaries in reverse production order, each followed by the divider. */
  function MergeQuery(summaries: seq<string>): (q: string)
    ensures summaries == [] ==> q == ""
    // one summary contributes itself and one divider, nothing more
    ensures |summaries| == 1 ==> q == summaries[0] + Divider
    // the last summary produced opens the query and the first closes it, each divided
    ensures |summaries| >= 1 ==>
      var n := |summaries|;
      && |summaries[n - 1]| + |Divider| <= |q| && |summaries[0]| + |Divider| <= |q|
      && q[..|summaries[n - 1]| + |Divider|] == summaries[n - 1] + Divider
      && q[|q| - |summaries[0]| - |Divider|..] == summaries[0] + Divider
  {
    if |summaries| == 0 then ""
    else
      ConcatReversedEnds(summaries, Divided);
      ConcatReversedSingle(summaries[0], Divided);
      assert |summaries| == 1 ==> summaries == [summaries[0]];
      ConcatReversed(summaries, Divided)
  }

  /** Summaries produced later, which cover older records, come first in the merge query. */
  lemma MergeQueryOrder(earlier: seq<string>, later: seq<string>)
    ensures MergeQuery(earlier + later) == MergeQuery(later) + MergeQuery(earlier)
  {
    ConcatReversedAppend(earlier, later, Divided);
    if |earlier| == 0 {
      assert earlier + later == later;
    }
    if |later| == 0 {
      assert earlier + later == earlier;
    }
  }

  /** How the command finishes after the split: the outcome, the merge request if one is
      made, and the summary time recorded for the rate limit. */
  datatype Finish = Finish(outcome: Outcome, mergeCall: Option<Session>, saved: Option<int>)

  /** Lines 316-353 after the split returned `out`; `merge` is the model's answer to the merge request. */
  function Conclude(out: SplitOutcome, merge: LmReply, now: real): (f: Finish)
    ensures out.Crashed? <==> f.outcome.Raised?
    // the summary time is recorded exactly when some batch was counted
    ensures f.saved.Some? <==> out.Summaries? && out.count > 0
    ensures f.saved.Some? ==> f.saved.value == Command.Trunc(now)
    // the failed first batch surfaces the model's text as an error; nothing counted is a generic error
    ensures out.FirstBatchFailed? ==> f == Finish(Replied(Reply(ErrorReply, out.content)), None, None)
    ensures out.Summaries? && out.count == 0 ==> f == Finish(Replied(Reply(ErrorReply, SummaryFailedText)), None, None)
    // one summary is the answer, with no merge request
    ensures out.Summaries? && out.count > 0 && |out.summaries| == 1 ==>
      f.mergeCall.None? && f.outcome == Replied(Reply(TextReply, CountLine(out.count) + out.summaries[0]))
    // several summaries take exactly one merge request over all of them
    ensures out.Summaries? && out.count > 0 && |out.summaries| != 1 ==>
      f.mergeCall == Some(Session(MergePrompt, MergeQuery(out.summaries)))
    ensures out.Summaries? && out.count > 0 && |out.summaries| != 1 && merge.completionTokens != 0 ==>
      f.outcome == Replied(Reply(TextReply, CountLine(out.count) + merge.content))
    // a failed merge keeps the unmerged query at the end of the error text
    ensures out.Summaries? && out.count > 0 && |out.summaries| != 1 && merge.completionTokens == 0 ==>
      && f.outcome.Replied? && f.outcome.reply.kind == ErrorReply
      && var q := MergeQuery(out.summaries); var t := f.outcome.reply.text;
      && |q| <= |t| && t[|t| - |q|..] == q
      && OccursAt(t, merge.content, |MergeFailedText|)
  {
    match out
    case Crashed => Finish(Raised, None, None)
    case FirstBatchFailed(content) => Finish(Replied(Reply(ErrorReply, content)), None, None)
    case Summaries(count, summaries) =>
      if count == 0 then Finish(Replied(Reply(ErrorReply, SummaryFailedText)), None, None)
      else if |summaries| == 1 then
        Finish(Replied(Reply(TextReply, CountLine(count) + summaries[0])), None, Some(Command.Trunc(now)))
      else
        var query := MergeQuery(summaries);
        var reply :=
          if merge.completionTokens == 0 then Reply(ErrorReply, MergeFailedText + merge.content + UnmergedText + query)
          else Reply(TextReply, CountLine(count) + merge.content);
        Finish(Replied(reply), Some(Session(MergePrompt, query)), Some(Command.Trunc(now)))
  }

  /** The batch requests in a trace are summary requests within the budget. */
  lemma {:induction false} TracedCallsFit(records: seq<Record>, spans: seq<Span>, calls: seq<Session>,
                                          maxTokens: int, tokens: string -> nat)
    requires Traced(records, spans, calls, maxTokens, tokens)
    ensures forall i :: 0 <= i < |calls| ==> calls[i].prompt == SummaryPrompt && tokens(calls[i].query) <= maxTokens
  {
    TracedSent(records, spans, calls, maxTokens, tokens);
    forall i | 0 <= i < |calls|
      ensures calls[i].prompt == SummaryPrompt && tokens(calls[i].query) <= maxTokens
    {
      assert SpanSent(records, spans[i], calls[i], maxTokens, tokens);
    }
  }

  /** Every request of the command in order: the batch requests, then the merge request if one is made. */
  function Requests(batch: seq<Session>, f: Finish): seq<Session>
  {
    batch + (if f.mergeCall.Some? then [f.mergeCall.value] else [])
  }

  /** The split, its requests and how the command concludes on it, for `records` at the command's settings. */
  ghost predicate Concluded(records: seq<Record>, tokens: string -> nat, replies: seq<LmReply>, now: real,
                            outcome: Outcome, calls: seq<Session>, saved: Option<int>,
                            out: SplitOutcome, spans: seq<Span>)
  {
    && |spans| <= MaxSummarys && |spans| <= |calls| && |spans| < |replies|
    && SplitReport(records, replies, SessionBudget, MaxSummarys, tokens, out, calls[..|spans|], spans)
    && var f := Conclude(out, replies[|spans|], now);
    && outcome == f.outcome && saved == f.saved && calls == Requests(calls[..|spans|], f)
  }

  /** What a concluded command promises about its requests, its reply and the time it records:
      at most nine requests, all but the last batch requests within the budget, a merge request
      over exactly the summaries returned, a failed first batch reported with the model's text. */
  lemma ConcludedRequests(records: seq<Record>, tokens: string -> nat, replies: seq<LmReply>, now: real,
                          outcome: Outcome, calls: seq<Session>, saved: Option<int>,
                          out: SplitOutcome, spans: seq<Span>)
    requires Concluded(records, tokens, replies, now, outcome, calls, saved, out, spans)
    ensures |calls| <= MaxSummarys + 1
    ensures forall i :: 0 <= i < |calls| - 1 ==> calls[i].prompt == SummaryPrompt
    ensures forall i :: 0 <= i < |calls| && calls[i].prompt == SummaryPrompt ==> tokens(calls[i].query) <= SessionBudget
    ensures |calls| > 0 && calls[|calls| - 1].prompt == MergePrompt ==>
      || calls[|calls| - 1].query == MergeQuery(Contents(replies[..|calls| - 1]))
      || (|calls| >= 2 && replies[|calls| - 2].completionTokens == 0
          && calls[|calls| - 1].query == MergeQuery(Contents(replies[..|calls| - 2])))
    ensures |spans| > 0 && replies[0].completionTokens == 0 ==> outcome == Replied(Reply(ErrorReply, replies[0].content))
    ensures outcome.Replied? && outcome.reply.kind == TextReply ==> saved == Some(Command.Trunc(now))
    ensures saved.Some? ==> saved.value == Command.Trunc(now)
  {
    var batch := calls[..|spans|];
    var f := Conclude(out, replies[|spans|], now);
    TracedCallsFit(records, spans, batch, SessionBudget, tokens);
    forall i | 0 <= i < |spans|
      ensures calls[i] == batch[i]
    {
    }
    if f.mergeCall.Some? {
      var n := |out.summaries|;
      assert calls[|calls| - 1] == Session(MergePrompt, MergeQuery(Contents(replies[..n])));
      assert |calls| - 1 == n || (|calls| - 1 == n + 1 && replies[n].completionTokens == 0);
    }
  }

  /**
   Two records where the newer fits alone but not with the older: the search
   sends the newer and consumes both (lines 182-196), so one request is made
   and the reply counts two records (lines 326-327).
   */
  lemma {:induction false} PairSummarised(records: seq<Record>, tokens: string -> nat, replies: seq<LmReply>, now: real,
                                          outcome: Outcome, calls: seq<Session>, saved: Option<int>,
                                          out: SplitOutcome, spans: seq<Span>)
    requires Concluded(records, tokens, replies, now, outcome, calls, saved, out, spans)
    requires |records| == 2
    requires FitsLen(records, 1, SessionBudget, tokens) && !FitsLen(records, 2, SessionBudget, tokens)
    requires replies[0].completionTokens != 0
    ensures out == Summaries(2, [replies[0].content])
    ensures calls == [SummarySession(records[..1])]
    ensures outcome == Replied(Reply(TextReply, CountLine(2) + replies[0].content))
  {
    var batch := calls[..|spans|];
    assert records[0..] == records;
    assert RouteOf(records, SessionBudget, tokens) == Bracketed;
    // no request at all would mean the split stopped or raised at 0, where a batch can be sent
    assert |spans| > 0;
    RoutedAt(records, spans, SessionBudget, tokens, 0);
    TracedContiguous(records, spans, batch, SessionBudget, tokens);
    assert spans[0] == Span(0, 1, 2);
    // a second batch would start at 2, past the input
    if |spans| > 1 {
      TracedAt(records, spans, batch, SessionBudget, tokens, 1);
      assert false;
    }
    assert Advanced(spans) == 2 && spans[..1] == spans;
  }

  /** Lines 316-353 on at least two stripped records: split, then conclude. */
  method SplitAndConclude(records: seq<Record>, tokens: string -> nat, replies: seq<LmReply>, now: real)
    returns (outcome: Outcome, calls: seq<Session>, saved: Option<int>, ghost out: SplitOutcome, ghost spans: seq<Span>)
    requires SortedNewestFirst(records)
    requires |replies| > MaxSummarys
    ensures Concluded(records, tokens, replies, now, outcome, calls, saved, out, spans)
    // at most the batch cap of requests and one merge request; a recorded time is the current second
    ensures |calls| <= MaxSummarys + 1
    ensures saved.Some? ==> saved.value == Command.Trunc(now)
  {
    var split, batch;
    split, batch, spans := SplitMessages(records, SessionBudget, MaxSummarys, tokens, replies);
    out := split;
    var f := Conclude(split, replies[|batch|], now);
    outcome, saved := f.outcome, f.saved;
    calls := Requests(batch, f);
    assert calls[..|spans|] == batch;
  }

  /**
   Lines 300-353 on the fetched records (newest first). `replies` answers the
   model's requests in order: the batch requests, then the merge request.
   Returns the outcome, every request made, and the summary time recorded;
   as ghosts, the split's outcome and where its batches lie.
   */
  method Summarize(fetched: seq<Record>, tokens: string -> nat, replies: seq<LmReply>, now: real)
    returns (outcome: Outcome, calls: seq<Session>, saved: Option<int>, ghost out: SplitOutcome, ghost spans: seq<Span>)
    requires SortedNewestFirst(fetched)
    requires |replies| > MaxSummarys
    // fewer than two records: an informational reply before any request
    ensures |fetched| <= 1 ==> outcome == Replied(Reply(InfoReply, NoRecordsText)) && calls == [] && saved.None?
    // otherwise the stripped records are split, and the command concludes on that split
    ensures |fetched| >= 2 ==> Concluded(Marker.StripAll(fetched), tokens, replies, now, outcome, calls, saved, out, spans)
  {
    var records := Marker.StripAll(fetched);
    if |records| <= 1 {
      out, spans := Summaries(0, []), [];
      return Replied(Reply(InfoReply, NoRecordsText)), [], None, out, spans;
    }
    outcome, calls, saved, out, spans := SplitAndConclude(records, tokens, replies, now);
  }
}
