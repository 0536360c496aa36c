/**
 The batch splitter `_split_messages_to_summarys`: carves the newest-first
 record list into batches that fit the token budget, with the source's own
 binary search, and asks the language model to summarise each batch.
 */
module Splitter {
  import opened Records
  import opened Budget
  import opened Replies

  /** What `_split_messages_to_summarys` returns, or the IndexError it raises. */
  datatype SplitOutcome =
    | Summaries(count: nat, summaries: seq<string>)   // `(count, summarys)`
    | FirstBatchFailed(content: string)               // `(0, reply_content)`
    | Crashed                                         // an empty slice was probed

  /** One pass of the outer loop before the request is made. */
  datatype Step =
    | StepSend(session: Session, sentLen: nat, last: nat)   // send `session`, consume `last` records
    | StepNoSession                                        // `session is None`: stop
    | StepCrash                                            // IndexError

  /** Where one request's batch sits in the input: it starts at `offset`, the
      session encodes `sentLen` records and the loop advances by `consumed`. */
  datatype Span = Span(offset: nat, sentLen: nat, consumed: nat)

  /** Python's `s[:k]` for any integer `k`, negative `k` counting from the end. */
  function SliceTo<T>(s: seq<T>, k: int): (r: seq<T>)
    ensures 0 <= k <= |s| ==> r == s[..k]
    ensures -|s| <= k < 0 ==> r == s[..|s| + k]
    ensures k < -|s| ==> r == []
    ensures |s| <= k ==> r == s
  {
    if k >= 0 then (if k <= |s| then s[..k] else s)
    else if |s| + k >= 0 then s[..|s| + k] else []
  }

  /** The newest `k` records, at least one, make a request within the budget. */
  predicate FitsLen(rs: seq<Record>, k: int, maxTokens: int, tokens: string -> nat)
  {
    1 <= k <= |rs| && tokens(UserQuery(rs[..k])) <= maxTokens
  }

  /** Fitting is closed under shortening the prefix. */
  ghost predicate MonotoneFit(rs: seq<Record>, maxTokens: int, tokens: string -> nat)
  {
    forall i, j :: 1 <= i <= j && FitsLen(rs, j, maxTokens, tokens) ==> FitsLen(rs, i, maxTokens, tokens)
  }

  /** The length of the longest fitting prefix no longer than `k`, 0 when none fits. */
  function LargestFitUpTo(rs: seq<Record>, k: nat, maxTokens: int, tokens: string -> nat): (r: nat)
    ensures r <= k
    ensures r > 0 ==> FitsLen(rs, r, maxTokens, tokens)
    ensures forall j :: r < j <= k ==> !FitsLen(rs, j, maxTokens, tokens)
  {
    if k == 0 then 0
    else if FitsLen(rs, k, maxTokens, tokens) then k
    else LargestFitUpTo(rs, k - 1, maxTokens, tokens)
  }

  function LargestFit(rs: seq<Record>, maxTokens: int, tokens: string -> nat): nat
  {
    LargestFitUpTo(rs, |rs|, maxTokens, tokens)
  }

  /** The probe of `records[:k]` for a length `k` the search can produce, in terms of `FitsLen`. */
  function ProbePrefix(rs: seq<Record>, k: int, maxTokens: int, tokens: string -> nat): (p: Probe)
    requires 0 <= k <= |rs|
    ensures p.EmptyIndexError? <==> k == 0
    ensures p.Fits? <==> FitsLen(rs, k, maxTokens, tokens)
    ensures p.Fits? ==> p.session == SummarySession(rs[..k])
  {
    CheckTokens(SliceTo(rs, k), maxTokens, tokens)
  }

  /** Where the search's `right` ends when every probe fails: it starts at `n`, and a failed
      probe at `mid = right // 2` sets `right = mid - 1`, until `right` is 0 or 1. */
  function FailedDescent(n: nat): (r: nat)
    ensures r <= 1
    ensures n <= 1 ==> r == n
    decreases n
  {
    if n <= 1 then n else FailedDescent(n / 2 - 1)
  }

  /** Every probe the search makes from `right` while `left` is still 0 fails. */
  predicate ProbesFail(rs: seq<Record>, right: nat, maxTokens: int, tokens: string -> nat)
    decreases right
  {
    right <= 1 || (!FitsLen(rs, right / 2, maxTokens, tokens) && ProbesFail(rs, right / 2 - 1, maxTokens, tokens))
  }

  /** Which way one pass of lines 179-196 goes on a remainder, read off which prefixes fit. */
  datatype Route =
    | Whole          // the remainder fits: it is sent and consumed whole
    | Bracketed      // a probe fitted: `left - 1` records are sent and `left` consumed
    | AllButOldest   // every probe failed and `records[:-1]` fits: it is sent, nothing consumed
    | NoBatch        // every probe failed and `records[:-1]` does not fit: the loop stops
    | EmptyProbe     // every probe failed down to `mid` 0: IndexError

  function RouteOf(rs: seq<Record>, maxTokens: int, tokens: string -> nat): Route
    requires |rs| > 0
  {
    if FitsLen(rs, |rs|, maxTokens, tokens) then Whole
    else if !ProbesFail(rs, |rs|, maxTokens, tokens) then Bracketed
    else if FailedDescent(|rs|) == 1 then EmptyProbe
    else if FitsLen(rs, |rs| - 1, maxTokens, tokens) then AllButOldest
    else NoBatch
  }

  /** A batch that sends `sentLen` records and consumes `last` is the one the route of `rs` makes;
      a bracketed batch is the search's: `last - 1` fits, `last` or `last + 1` does not. */
  predicate RouteAgrees(rs: seq<Record>, sentLen: nat, last: nat, maxTokens: int, tokens: string -> nat)
    requires |rs| > 0
  {
    match RouteOf(rs, maxTokens, tokens)
    case Whole => sentLen == last == |rs|
    case Bracketed =>
      && 2 <= last <= |rs| && sentLen == last - 1
      && (!FitsLen(rs, last, maxTokens, tokens) || !FitsLen(rs, last + 1, maxTokens, tokens))
    case AllButOldest => last == 0 && sentLen == |rs| - 1
    case NoBatch => false
    case EmptyProbe => false
  }

  /** How the binary search of lines 182-190 ends: it probed an empty slice, or it left `left`. */
  datatype SearchEnd = SearchCrash | SearchLeft(left: nat)

  /**
   Lines 182-190: the binary search over prefix lengths with the source's
   updates `right = mid - 1` and `left = mid + 1`.
   */
  method BinarySearch(rest: seq<Record>, maxTokens: int, tokens: string -> nat) returns (e: SearchEnd)
    requires |rest| > 0
    requires !FitsLen(rest, |rest|, maxTokens, tokens)
    ensures e.SearchLeft? ==> e.left <= |rest| && e.left != 1
    ensures e.SearchLeft? && e.left >= 2 ==>
      && FitsLen(rest, e.left - 1, maxTokens, tokens)
      && (!FitsLen(rest, e.left, maxTokens, tokens) || !FitsLen(rest, e.left + 1, maxTokens, tokens))
    ensures e.SearchLeft? && e.left == 0 ==> !FitsLen(rest, 1, maxTokens, tokens)
    ensures e.SearchCrash? ==> !FitsLen(rest, 2, maxTokens, tokens)
    // `left` stays 0 exactly when every probe fails; the search then ends on `right` 0, or probes `mid` 0
    ensures e.SearchCrash? <==> ProbesFail(rest, |rest|, maxTokens, tokens) && FailedDescent(|rest|) == 1
    ensures e.SearchLeft? && e.left == 0 <==> ProbesFail(rest, |rest|, maxTokens, tokens) && FailedDescent(|rest|) == 0
  {
    var left, right := 0, |rest|;
    while left < right
      invariant 0 <= left <= |rest| && 0 <= right <= |rest|
      invariant left <= right + 1
      invariant left != 1
      invariant left >= 2 ==> FitsLen(rest, left - 1, maxTokens, tokens)
      invariant right < |rest| ==> !FitsLen(rest, right + 1, maxTokens, tokens)
      invariant left == 0 ==>
        && (ProbesFail(rest, |rest|, maxTokens, tokens) <==> ProbesFail(rest, right, maxTokens, tokens))
        && FailedDescent(|rest|) == FailedDescent(right)
      invariant left >= 2 ==> !ProbesFail(rest, |rest|, maxTokens, tokens)
      decreases right - left
    {
      var mid := (left + right) / 2;
      assert left <= mid < right;
      var p := ProbePrefix(rest, mid, maxTokens, tokens);
      if p.EmptyIndexError? {
        return SearchCrash;
      }
      if !p.Fits? {
        right := mid - 1;
      } else {
        left := mid + 1;
      }
    }
    if left >= 2 {
      if right == |rest| {
        assert !FitsLen(rest, left, maxTokens, tokens);
      } else if right == left {
        assert !FitsLen(rest, left + 1, maxTokens, tokens);
      } else {
        assert right + 1 == left;
      }
    }
    return SearchLeft(left);
  }

  /**
   Lines 179-196: probe the whole remainder; when it does not fit, search,
   then probe `records[:left - 1]` and consume `left` records.
   */
  method ProbeBatch(rest: seq<Record>, maxTokens: int, tokens: string -> nat) returns (step: Step)
    requires |rest| > 0
    // every session sent is a prefix that fits
    ensures step.StepSend? ==>
      && 1 <= step.sentLen <= |rest|
      && step.last <= |rest|
      && step.session == SummarySession(rest[..step.sentLen])
      && FitsLen(rest, step.sentLen, maxTokens, tokens)
    // the whole remainder, when it fits, is one batch
    ensures FitsLen(rest, |rest|, maxTokens, tokens) ==>
      step == StepSend(SummarySession(rest), |rest|, |rest|)
    // otherwise `left` records are consumed and `left - 1` sent, or `records[:-1]` is sent when `left` is 0
    ensures !FitsLen(rest, |rest|, maxTokens, tokens) && step.StepSend? ==>
      || (step.last >= 2 && step.sentLen == step.last - 1)
      || (step.last == 0 && step.sentLen == |rest| - 1 && !FitsLen(rest, 1, maxTokens, tokens))
    // the search brackets the longest fitting prefix: `left - 1` fits, `left` or `left + 1` does not
    ensures !FitsLen(rest, |rest|, maxTokens, tokens) && step.StepSend? && step.last >= 2 ==>
      !FitsLen(rest, step.last, maxTokens, tokens) || !FitsLen(rest, step.last + 1, maxTokens, tokens)
    ensures step.StepNoSession? ==>
      !FitsLen(rest, 1, maxTokens, tokens) && !FitsLen(rest, |rest|, maxTokens, tokens)
    // the empty probe happens only when no two newest records fit together
    ensures step.StepCrash? ==>
      !FitsLen(rest, 2, maxTokens, tokens) && !FitsLen(rest, |rest|, maxTokens, tokens)
    ensures |rest| == 1 && !FitsLen(rest, 1, maxTokens, tokens) ==> step.StepCrash?
    // the pass goes the way the remainder's route says
    ensures step.StepSend? ==> RouteAgrees(rest, step.sentLen, step.last, maxTokens, tokens)
    ensures step.StepNoSession? <==> RouteOf(rest, maxTokens, tokens) == NoBatch
    ensures step.StepCrash? <==> RouteOf(rest, maxTokens, tokens) == EmptyProbe
  {
    assert rest[..|rest|] == rest;
    var probe := CheckTokens(rest, maxTokens, tokens);
    if probe.Fits? {
      return StepSend(probe.session, |rest|, |rest|);
    }
    var e := BinarySearch(rest, maxTokens, tokens);
    if e.SearchCrash? {
      return StepCrash;
    }
    var batch := SliceTo(rest, e.left - 1);
    probe := CheckTokens(batch, maxTokens, tokens);
    match probe
    case EmptyIndexError => step := StepCrash;
    case TooLarge => step := StepNoSession;
    case Fits(s) => step := StepSend(s, |batch|, e.left);
  }

  /** Under monotone fitting the search lands within one of the longest fitting prefix. */
  lemma SearchBracketsLargestFit(rs: seq<Record>, maxTokens: int, tokens: string -> nat, last: nat)
    requires MonotoneFit(rs, maxTokens, tokens)
    requires 2 <= last <= |rs|
    requires FitsLen(rs, last - 1, maxTokens, tokens)
    requires !FitsLen(rs, last, maxTokens, tokens) || !FitsLen(rs, last + 1, maxTokens, tokens)
    ensures last - 1 <= LargestFit(rs, maxTokens, tokens) <= last
  {
  }

  /** A token counter that never charges more when a block of text is dropped
      from between the intro and the rest of the query. */
  ghost predicate DroppingNeverAddsTokens(tokens: string -> nat)
  {
    forall x: string, y: string :: tokens(QueryIntro + y) <= tokens(QueryIntro + x + y)
  }

  /** Such a counter makes fitting monotone: a shorter newest-first prefix fits whenever a longer one does. */
  lemma MonotoneFitFromTokens(rs: seq<Record>, maxTokens: int, tokens: string -> nat)
    requires DroppingNeverAddsTokens(tokens)
    ensures MonotoneFit(rs, maxTokens, tokens)
  {
    forall i, j | 1 <= i <= j && FitsLen(rs, j, maxTokens, tokens)
      ensures FitsLen(rs, i, maxTokens, tokens)
    {
      EncodePrefix(rs, i, j);
      assert rs[..j][..i] == rs[..i];
      var x, y := Encode(rs[i..j]), Encode(rs[..i]);
      assert UserQuery(rs[..j]) == QueryIntro + x + y;
      assert tokens(QueryIntro + y) <= tokens(QueryIntro + x + y);
    }
  }

  /** The contents of a run of replies, in order. */
  function Contents(rs: seq<LmReply>): (cs: seq<string>)
    ensures |cs| == |rs|
    ensures forall i :: 0 <= i < |rs| ==> cs[i] == rs[i].content
  {
    seq(|rs|, i requires 0 <= i < |rs| => rs[i].content)
  }

  /** How far the batches in `spans` advanced through the input. */
  ghost function Advanced(spans: seq<Span>): nat
  {
    if |spans| == 0 then 0 else spans[|spans| - 1].offset + spans[|spans| - 1].consumed
  }

  /** The request made for `span` encodes exactly its slice of `records` and fits the budget;
      it consumes what it sent, one record more, or nothing after sending all but the oldest. */
  ghost predicate SpanSent(records: seq<Record>, span: Span, call: Session, maxTokens: int, tokens: string -> nat)
  {
    && span.offset + span.sentLen <= |records|
    && span.offset + span.consumed <= |records|
    && span.sentLen >= 1
    && call == SummarySession(records[span.offset..span.offset + span.sentLen])
    && tokens(call.query) <= maxTokens
    && (|| (span.consumed == span.sentLen && span.offset + span.consumed == |records|)
        || span.consumed == span.sentLen + 1
        || (span.consumed == 0 && span.offset + span.sentLen + 1 == |records|))
  }

  /** One pass of the outer loop's probing, placed at `count` in the whole input. */
  method NextBatch(records: seq<Record>, count: nat, maxTokens: int, tokens: string -> nat) returns (step: Step)
    requires count < |records|
    ensures step.StepSend? ==> SpanSent(records, Span(count, step.sentLen, step.last), step.session, maxTokens, tokens)
    ensures step.StepSend? ==> RouteAgrees(records[count..], step.sentLen, step.last, maxTokens, tokens)
    // a remainder that fits whole is one batch, consumed whole
    ensures FitsLen(records[count..], |records| - count, maxTokens, tokens) ==>
      step == StepSend(SummarySession(records[count..]), |records| - count, |records| - count)
    ensures count == 0 && FitsLen(records, |records|, maxTokens, tokens) ==>
      step == StepSend(SummarySession(records), |records|, |records|)
    ensures step.StepNoSession? <==> RouteOf(records[count..], maxTokens, tokens) == NoBatch
    ensures step.StepCrash? <==> RouteOf(records[count..], maxTokens, tokens) == EmptyProbe
  {
    var rest := records[count..];
    step := ProbeBatch(rest, maxTokens, tokens);
    if step.StepSend? {
      assert rest[..step.sentLen] == records[count..count + step.sentLen];
    }
    if count == 0 {
      assert rest == records;
    }
  }

  /** Every request so far encodes its slice of the input and fits the budget, and
      each slice starts where the previous one's consumption ended, the first at 0. */
  ghost predicate Traced(records: seq<Record>, spans: seq<Span>, calls: seq<Session>, maxTokens: int, tokens: string -> nat)
    decreases |spans|
  {
    && |calls| == |spans|
    && (|spans| > 0 ==>
          var n := |spans| - 1;
          && Traced(records, spans[..n], calls[..n], maxTokens, tokens)
          && SpanSent(records, spans[n], calls[n], maxTokens, tokens)
          && spans[n].offset == Advanced(spans[..n]))
  }

  /** A non-empty trace is a trace of all but its last request, followed by that request. */
  lemma TracedLast(records: seq<Record>, spans: seq<Span>, calls: seq<Session>, maxTokens: int, tokens: string -> nat)
    requires Traced(records, spans, calls, maxTokens, tokens) && |spans| > 0
    ensures var n := |spans| - 1;
      && Traced(records, spans[..n], calls[..n], maxTokens, tokens)
      && SpanSent(records, spans[n], calls[n], maxTokens, tokens)
      && spans[n].offset == Advanced(spans[..n])
  {
  }

  /** The `i`-th request of a trace is the summary session of its slice, within the budget. */
  lemma {:induction false} TracedAt(records: seq<Record>, spans: seq<Span>, calls: seq<Session>,
                                    maxTokens: int, tokens: string -> nat, i: nat)
    requires Traced(records, spans, calls, maxTokens, tokens) && i < |spans|
    ensures SpanSent(records, spans[i], calls[i], maxTokens, tokens)
    decreases |spans|
  {
    var n := |spans| - 1;
    TracedLast(records, spans, calls, maxTokens, tokens);
    if i < n {
      TracedAt(records, spans[..n], calls[..n], maxTokens, tokens, i);
      assert spans[..n][i] == spans[i] && calls[..n][i] == calls[i];
    }
  }

  /** Read request by request, a trace makes every request the summary session of its slice, within the budget. */
  lemma TracedSent(records: seq<Record>, spans: seq<Span>, calls: seq<Session>,
                   maxTokens: int, tokens: string -> nat)
    requires Traced(records, spans, calls, maxTokens, tokens)
    ensures forall i :: 0 <= i < |spans| ==> SpanSent(records, spans[i], calls[i], maxTokens, tokens)
  {
    forall i | 0 <= i < |spans|
      ensures SpanSent(records, spans[i], calls[i], maxTokens, tokens)
    {
      TracedAt(records, spans, calls, maxTokens, tokens, i);
    }
  }

  /** The `i`-th batch of a trace starts at 0 if it is the first, else where the previous advance ended. */
  lemma {:induction false} TracedLinkAt(records: seq<Record>, spans: seq<Span>, calls: seq<Session>,
                                        maxTokens: int, tokens: string -> nat, i: nat)
    requires Traced(records, spans, calls, maxTokens, tokens) && i < |spans|
    ensures spans[i].offset == if i == 0 then 0 else spans[i - 1].offset + spans[i - 1].consumed
    decreases |spans|
  {
    var n := |spans| - 1;
    TracedLast(records, spans, calls, maxTokens, tokens);
    if i == n {
      if n > 0 {
        assert spans[..n][n - 1] == spans[n - 1];
      }
    } else {
      TracedLinkAt(records, spans[..n], calls[..n], maxTokens, tokens, i);
      assert spans[..n][i] == spans[i];
      if i > 0 {
        assert spans[..n][i - 1] == spans[i - 1];
      }
    }
  }

  /** Read request by request, the first batch starts at 0 and each later one where the previous advance ended. */
  lemma TracedContiguous(records: seq<Record>, spans: seq<Span>, calls: seq<Session>,
                         maxTokens: int, tokens: string -> nat)
    requires Traced(records, spans, calls, maxTokens, tokens)
    ensures |spans| > 0 ==> spans[0].offset == 0
    ensures forall i :: 0 < i < |spans| ==> spans[i].offset == spans[i - 1].offset + spans[i - 1].consumed
  {
    forall i | 0 <= i < |spans|
      ensures spans[i].offset == if i == 0 then 0 else spans[i - 1].offset + spans[i - 1].consumed
    {
      TracedLinkAt(records, spans, calls, maxTokens, tokens, i);
    }
  }

  /** The batch of `span` is the one the route of the remainder it starts at makes. */
  ghost predicate SpanRouted(records: seq<Record>, span: Span, maxTokens: int, tokens: string -> nat)
  {
    span.offset < |records| && RouteAgrees(records[span.offset..], span.sentLen, span.consumed, maxTokens, tokens)
  }

  /** Every batch in `spans` is the one its remainder's route makes. */
  ghost predicate Routed(records: seq<Record>, spans: seq<Span>, maxTokens: int, tokens: string -> nat)
    decreases |spans|
  {
    |spans| > 0 ==>
      var n := |spans| - 1;
      Routed(records, spans[..n], maxTokens, tokens) && SpanRouted(records, spans[n], maxTokens, tokens)
  }

  /** The `i`-th batch of routed spans is the one its remainder's route makes. */
  lemma {:induction false} RoutedAt(records: seq<Record>, spans: seq<Span>, maxTokens: int, tokens: string -> nat, i: nat)
    requires Routed(records, spans, maxTokens, tokens) && i < |spans|
    ensures SpanRouted(records, spans[i], maxTokens, tokens)
    decreases |spans|
  {
    var n := |spans| - 1;
    if i < n {
      RoutedAt(records, spans[..n], maxTokens, tokens, i);
      assert spans[..n][i] == spans[i];
    }
  }

  lemma RoutedAppend(records: seq<Record>, spans: seq<Span>, span: Span, maxTokens: int, tokens: string -> nat)
    requires Routed(records, spans, maxTokens, tokens)
    requires SpanRouted(records, span, maxTokens, tokens)
    ensures Routed(records, spans + [span], maxTokens, tokens)
  {
    assert (spans + [span])[..|spans|] == spans;
  }

  /** The first `n` replies all reported completion tokens. */
  predicate Completed(replies: seq<LmReply>, n: nat)
    requires n <= |replies|
  {
    forall i :: 0 <= i < n ==> replies[i].completionTokens != 0
  }

  lemma CompletedNext(replies: seq<LmReply>, n: nat)
    requires n < |replies| && Completed(replies, n) && replies[n].completionTokens != 0
    ensures Completed(replies, n + 1)
  {
  }

  /** The loop invariant of lines 178-214: every request so far succeeded, its reply is
      the matching summary, and `count` is how far the batches advanced. */
  ghost predicate Accounted(records: seq<Record>, replies: seq<LmReply>, maxTokens: int, tokens: string -> nat,
                            count: nat, summaries: seq<string>, calls: seq<Session>, spans: seq<Span>)
  {
    && count <= |records|
    && |summaries| == |calls| <= |replies|
    && summaries == Contents(replies[..|summaries|])
    && Completed(replies, |summaries|)
    && Traced(records, spans, calls, maxTokens, tokens)
    && Routed(records, spans, maxTokens, tokens)
    && count == Advanced(spans)
  }

  lemma AppendSpan(records: seq<Record>, spans: seq<Span>, calls: seq<Session>, span: Span, call: Session,
                   maxTokens: int, tokens: string -> nat)
    requires Traced(records, spans, calls, maxTokens, tokens) && span.offset == Advanced(spans)
    requires SpanSent(records, span, call, maxTokens, tokens)
    ensures Traced(records, spans + [span], calls + [call], maxTokens, tokens)
    ensures Advanced(spans + [span]) == span.offset + span.consumed
    ensures (spans + [span])[..|spans|] == spans
  {
    assert (spans + [span])[..|spans|] == spans;
    assert (calls + [call])[..|calls|] == calls;
  }

  lemma AppendReply(replies: seq<LmReply>, summaries: seq<string>, k: nat)
    requires k < |replies| && summaries == Contents(replies[..k])
    ensures summaries + [replies[k].content] == Contents(replies[..k + 1])
  {
    assert replies[..k + 1] == replies[..k] + [replies[k]];
  }

  /** A successful request keeps the loop invariant once its summary is appended and `count` advanced. */
  lemma AccountedAppend(records: seq<Record>, replies: seq<LmReply>, maxTokens: int, tokens: string -> nat,
                        count: nat, summaries: seq<string>, calls: seq<Session>, spans: seq<Span>,
                        span: Span, call: Session)
    requires Accounted(records, replies, maxTokens, tokens, count, summaries, calls, spans)
    requires |summaries| < |replies| && replies[|summaries|].completionTokens != 0
    requires span.offset == count && SpanSent(records, span, call, maxTokens, tokens)
    requires RouteAgrees(records[count..], span.sentLen, span.consumed, maxTokens, tokens)
    ensures Accounted(records, replies, maxTokens, tokens, count + span.consumed,
                      summaries + [replies[|summaries|].content], calls + [call], spans + [span])
  {
    AppendSpan(records, spans, calls, span, call, maxTokens, tokens);
    RoutedAppend(records, spans, span, maxTokens, tokens);
    AppendReply(replies, summaries, |summaries|);
    CompletedNext(replies, |summaries|);
    assert count + span.consumed <= |records|;
  }

  /** How one pass of the outer loop ends. */
  datatype Pass = Summarised | NoSession | ZeroCompletion | IndexError

  /**
   One pass of the outer loop (lines 179-214): probe, make the request, and
   either record the summary and advance, or report why the loop stops.
   */
  method SummariseNext(records: seq<Record>, replies: seq<LmReply>, maxTokens: int, tokens: string -> nat,
                       count: nat, summaries: seq<string>, calls: seq<Session>, ghost spans: seq<Span>)
    returns (pass: Pass, count': nat, summaries': seq<string>, calls': seq<Session>, ghost spans': seq<Span>)
    requires Accounted(records, replies, maxTokens, tokens, count, summaries, calls, spans)
    requires count < |records| && |summaries| < |replies|
    ensures pass.Summarised? ==>
      && Accounted(records, replies, maxTokens, tokens, count', summaries', calls', spans')
      && |summaries'| == |summaries| + 1
    ensures pass.NoSession? || pass.IndexError? ==>
      count' == count && summaries' == summaries && calls' == calls && spans' == spans
    // the loop stops without a request exactly where the remainder's route makes none
    ensures pass.NoSession? <==> RouteOf(records[count..], maxTokens, tokens) == NoBatch
    ensures pass.IndexError? <==> RouteOf(records[count..], maxTokens, tokens) == EmptyProbe
    ensures pass.ZeroCompletion? ==>
      && count' == count && summaries' == summaries
      && Traced(records, spans', calls', maxTokens, tokens)
      && Routed(records, spans', maxTokens, tokens)
      && |calls'| == |calls| + 1 && calls'[..|calls|] == calls && spans'[..|spans|] == spans
      && replies[|summaries|].completionTokens == 0
    ensures count == 0 && FitsLen(records, |records|, maxTokens, tokens) ==>
      && (pass.Summarised? || pass.ZeroCompletion?)
      && (pass.Summarised? ==> count' == |records| && summaries' == summaries + [replies[|summaries|].content])
  {
    count', summaries', calls', spans' := count, summaries, calls, spans;
    var step := NextBatch(records, count, maxTokens, tokens);
    if step.StepCrash? {
      return IndexError, count', summaries', calls', spans';
    }
    if step.StepNoSession? {
      return NoSession, count', summaries', calls', spans';
    }
    var reply := replies[|summaries|];
    var span := Span(count, step.sentLen, step.last);
    calls' := calls + [step.session];
    spans' := spans + [span];
    if reply.completionTokens == 0 {
      AppendSpan(records, spans, calls, span, step.session, maxTokens, tokens);
      RoutedAppend(records, spans, span, maxTokens, tokens);
      return ZeroCompletion, count', summaries', calls', spans';
    }
    AccountedAppend(records, replies, maxTokens, tokens, count, summaries, calls, spans, span, step.session);
    summaries' := summaries + [reply.content];
    count' := count + step.last;
    pass := Summarised;
  }

  /**
   What the split reports, read against the requests it made and the replies
   they got. `calls` are the requests in order and `spans` their batches.
   */
  ghost predicate SplitReport(records: seq<Record>, replies: seq<LmReply>, maxTokens: int, maxSummarys: int,
                              tokens: string -> nat, out: SplitOutcome, calls: seq<Session>, spans: seq<Span>)
  {
    && Traced(records, spans, calls, maxTokens, tokens)
    && Routed(records, spans, maxTokens, tokens)
    && |calls| <= |replies|
    && (|calls| == 0 || |calls| <= maxSummarys)
    // the summaries are the replies' contents in order, each with completion tokens;
    // a request after them, if any, got none; `count` is how far their batches advanced
    && (out.Summaries? ==>
          && out.count <= |records|
          && |out.summaries| <= |calls| <= |out.summaries| + 1
          && out.count == Advanced(spans[..|out.summaries|])
          && out.summaries == Contents(replies[..|out.summaries|])
          && Completed(replies, |out.summaries|)
          && (|calls| == |out.summaries| + 1 ==> replies[|calls| - 1].completionTokens == 0)
          && (out.count > 0 ==> |out.summaries| > 0))
    // whatever is left unsummarised is the oldest part of the input
    && (out.Summaries? ==>
          forall i, j :: 0 <= i < out.count <= j < |records| ==> records[j].timestamp <= records[i].timestamp)
    // the first reply without completion tokens is returned as `(0, reply_content)`, and only it
    && (out.FirstBatchFailed? ==>
          |calls| == 1 && replies[0].completionTokens == 0 && out.content == replies[0].content)
    && (|calls| > 0 && replies[0].completionTokens == 0 ==> out.FirstBatchFailed?)
    // it raised only after every earlier batch was summarised, at a remainder whose search probes `mid` 0
    && (out.Crashed? ==>
          && |calls| < maxSummarys && Completed(replies, |calls|)
          && Advanced(spans) < |records| && RouteOf(records[Advanced(spans)..], maxTokens, tokens) == EmptyProbe)
    // with input left and batches to spare, it stopped only where no batch can be sent
    && (out.Summaries? && |calls| == |out.summaries| < maxSummarys && out.count < |records| ==>
          RouteOf(records[out.count..], maxTokens, tokens) == NoBatch)
  }

  /** The loop stopped with `(count, summaries)`: the input is used up, the cap is reached, or
      no batch can be sent from `count`. */
  lemma ReportStopped(records: seq<Record>, replies: seq<LmReply>, maxTokens: int, maxSummarys: int,
                      tokens: string -> nat, count: nat, summaries: seq<string>, calls: seq<Session>, spans: seq<Span>)
    requires SortedNewestFirst(records)
    requires Accounted(records, replies, maxTokens, tokens, count, summaries, calls, spans)
    requires |summaries| == 0 || |summaries| <= maxSummarys
    requires count == |records| || |summaries| >= maxSummarys || RouteOf(records[count..], maxTokens, tokens) == NoBatch
    ensures SplitReport(records, replies, maxTokens, maxSummarys, tokens, Summaries(count, summaries), calls, spans)
  {
    assert spans[..|summaries|] == spans;
  }

  /** The loop stopped on a reply without completion tokens after at least one summary. */
  lemma ReportZeroCompletion(records: seq<Record>, replies: seq<LmReply>, maxTokens: int, maxSummarys: int,
                             tokens: string -> nat, count: nat, summaries: seq<string>, calls: seq<Session>, spans: seq<Span>,
                             calls': seq<Session>, spans': seq<Span>)
    requires SortedNewestFirst(records)
    requires Accounted(records, replies, maxTokens, tokens, count, summaries, calls, spans)
    requires 0 < |summaries| < maxSummarys
    requires Traced(records, spans', calls', maxTokens, tokens) && Routed(records, spans', maxTokens, tokens)
    requires |calls'| == |calls| + 1 && calls'[..|calls|] == calls && spans'[..|spans|] == spans
    requires |summaries| < |replies| && replies[|summaries|].completionTokens == 0
    ensures SplitReport(records, replies, maxTokens, maxSummarys, tokens, Summaries(count, summaries), calls', spans')
  {
    assert |spans| == |summaries| && spans'[..|summaries|] == spans;
    assert replies[0].completionTokens != 0;
  }

  /** The first reply had no completion tokens. */
  lemma ReportFirstFailed(records: seq<Record>, replies: seq<LmReply>, maxTokens: int, maxSummarys: int,
                          tokens: string -> nat, calls: seq<Session>, spans: seq<Span>)
    requires 0 < maxSummarys && 0 < |replies|
    requires Traced(records, spans, calls, maxTokens, tokens) && Routed(records, spans, maxTokens, tokens)
    requires |calls| == 1 && replies[0].completionTokens == 0
    ensures SplitReport(records, replies, maxTokens, maxSummarys, tokens, FirstBatchFailed(replies[0].content), calls, spans)
  {
  }

  /** A probe of an empty slice raised before the request of pass `|summaries|`. */
  lemma ReportCrashed(records: seq<Record>, replies: seq<LmReply>, maxTokens: int, maxSummarys: int,
                      tokens: string -> nat, count: nat, summaries: seq<string>, calls: seq<Session>, spans: seq<Span>)
    requires Accounted(records, replies, maxTokens, tokens, count, summaries, calls, spans)
    requires count < |records| && |summaries| < maxSummarys
    requires RouteOf(records[count..], maxTokens, tokens) == EmptyProbe
    ensures SplitReport(records, replies, maxTokens, maxSummarys, tokens, Crashed, calls, spans)
  {
  }

  /**
   `_split_messages_to_summarys` (lines 174-215). `records` is newest first;
   `replies` answers the language-model calls in order. Besides the outcome it
   returns the sessions sent to the model, and, as ghost, where each batch lies.
   */
  method SplitMessages(records: seq<Record>, maxTokens: int, maxSummarys: int,
                       tokens: string -> nat, replies: seq<LmReply>)
    returns (out: SplitOutcome, calls: seq<Session>, ghost spans: seq<Span>)
    requires SortedNewestFirst(records)
    requires |replies| >= maxSummarys
    ensures SplitReport(records, replies, maxTokens, maxSummarys, tokens, out, calls, spans)
    // a list that fits whole is summarised by one call
    ensures |records| > 0 && maxSummarys > 0 && FitsLen(records, |records|, maxTokens, tokens)
            && replies[0].completionTokens != 0 ==>
      out == Summaries(|records|, [replies[0].content])
  {
    var rest := records;
    var summaries: seq<string> := [];
    var count := 0;
    calls, spans := [], [];
    ghost var wholeFits := |records| > 0 && FitsLen(records, |records|, maxTokens, tokens);
    var pass := Summarised;
    while |rest| > 0 && |summaries| < maxSummarys
      invariant Accounted(records, replies, maxTokens, tokens, count, summaries, calls, spans)
      invariant rest == records[count..]
      invariant |summaries| == 0 || |summaries| <= maxSummarys
      invariant wholeFits && |summaries| > 0 ==> count == |records| && summaries == [replies[0].content]
      decreases maxSummarys - |summaries|
    {
      var count', summaries', calls';
      ghost var spans';
      pass, count', summaries', calls', spans' :=
        SummariseNext(records, replies, maxTokens, tokens, count, summaries, calls, spans);
      if !pass.Summarised? {
        if pass.IndexError? {
          ReportCrashed(records, replies, maxTokens, maxSummarys, tokens, count, summaries, calls, spans);
          out := Crashed;
          return;
        }
        if pass.ZeroCompletion? && |summaries| == 0 {
          ReportFirstFailed(records, replies, maxTokens, maxSummarys, tokens, calls', spans');
          out := FirstBatchFailed(replies[0].content);
          calls, spans := calls', spans';
          return;
        }
        if pass.ZeroCompletion? {
          ReportZeroCompletion(records, replies, maxTokens, maxSummarys, tokens, count, summaries, calls, spans, calls', spans');
          calls, spans := calls', spans';
        } else {
          ReportStopped(records, replies, maxTokens, maxSummarys, tokens, count, summaries, calls, spans);
        }
        out := Summaries(count, summaries);
        return;
      }
      count, summaries, calls, spans := count', summaries', calls', spans';
      rest := records[count..];
    }
    ReportStopped(records, replies, maxTokens, maxSummarys, tokens, count, summaries, calls, spans);
    out := Summaries(count, summaries);
  }
}
