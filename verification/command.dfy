/**
 The decisions of the summarise command before any record is fetched
 (lines 259-298): the rate limit, the record limit and time window from an
 explicit argument or a translated free-text request, and the start time.
 The clock is the parameter `now`, in seconds as `time.time()` gives them.
 */
module Command {
  import opened Wrappers
  import opened Replies
  import FindJson

  /** Python's `int(x)` on a float: truncation toward zero. */
  function Trunc(x: real): (r: int)
    ensures x >= 0.0 ==> r as real <= x < r as real + 1.0
    ensures x < 0.0 ==> r as real - 1.0 < x <= r as real
  {
    if x >= 0.0 then x.Floor else -((-x).Floor)
  }

  /** `rate_limit_summary` in minutes, 60 when unset, as seconds. */
  function RateLimitSeconds(configured: Option<int>): int
  {
    configured.GetOr(60) * 60
  }

  /** A last summary time exists and less than the limit has passed since. */
  predicate RateLimited(lastTime: Option<int>, now: real, configured: Option<int>)
  {
    lastTime.Some? && now - lastTime.value as real < RateLimitSeconds(configured) as real
  }

  /** How the command word was written. */
  datatype Invocation =
    | Bare               // exactly the prefix and 总结
    | WithCount(n: int)  // followed by an argument `int()` accepts
    | FreeText           // anything else: the text goes to the translation request

  /** The fields read from the translated JSON command: `name`, `args.count`, `args.duration_in_seconds`. */
  datatype Translated = Translated(name: string, count: Option<int>, duration: Option<int>)

  /** What the handler does next. */
  datatype Decision =
    | Respond(reply: Reply)                // reply and stop
    | Silent                               // return without a reply
    | Fetch(startTime: int, limit: int)    // `get_records(session_id, start_time, limit)`

  function AsciiLower(s: string): (r: string)
    ensures |r| == |s|
    ensures forall i :: 0 <= i < |s| ==> r[i] == (if 'A' <= s[i] <= 'Z' then (s[i] as int + 32) as char else s[i])
  {
    seq(|s|, i requires 0 <= i < |s| => if 'A' <= s[i] <= 'Z' then (s[i] as int + 32) as char else s[i])
  }

  /** `(limit, duration)` after a translated command: defaults 99 and -1, a negative count becomes 299;
      a command other than "summary" leaves the defaults. */
  function TranslatedLimits(t: Translated): (ld: (int, int))
    ensures ld.0 >= 0
    ensures AsciiLower(t.name) != "summary" ==> ld == (99, -1)
    ensures AsciiLower(t.name) == "summary" ==>
      && ld.1 == t.duration.GetOr(-1)
      && (t.count.None? ==> ld.0 == 99)
      && (t.count.Some? && t.count.value >= 0 ==> ld.0 == t.count.value)
      && (t.count.Some? && t.count.value < 0 ==> ld.0 == 299)
  {
    if AsciiLower(t.name) == "summary" then
      var limit := t.count.GetOr(99);
      (if limit < 0 then 299 else limit, t.duration.GetOr(-1))
    else (99, -1)
  }

  /** Lines 294-298: the start of the time window, 0 (no bound) unless a positive duration is given. */
  function StartTime(now: real, duration: int): (start: int)
    ensures duration > 0 ==> start + duration == Trunc(now)
    ensures duration <= 0 ==> start == 0
  {
    if duration > 0 then Trunc(now) - duration else 0
  }

  /** What `find_json` is handed: `re.search` takes a string, and the reply dict makes it raise `TypeError`. */
  datatype Handed = HandedText(text: string) | HandedReply(reply: LmReply)

  /** `find_json` on the handed value, `None` when it raises. */
  function FindJsonOn(v: Handed): (r: Option<string>)
    ensures r.None? <==> v.HandedReply?
  {
    match v
    case HandedText(text) => Some(FindJson.Find(text))
    case HandedReply(_) => None
  }

  /**
   Lines 259-298, with `handed` the value a free-text request passes to
   `find_json`. `parse` stands for `json.loads` and the field reads, `None`
   when any of them raises; every exception is caught at lines 288-290.
   */
  function Decide(now: real, lastTime: Option<int>, configured: Option<int>, invocation: Invocation,
                  handed: Handed, parse: string -> Option<Translated>): Decision
  {
    if RateLimited(lastTime, now, configured) then Respond(Reply(TextReply, RateLimitedText))
    else
      match invocation
      case Bare => Fetch(StartTime(now, -1), 99)
      case WithCount(n) => Fetch(StartTime(now, -1), n)
      case FreeText =>
        match FindJsonOn(handed)
        case None => Silent
        case Some(json) =>
          match parse(json)
          case None => Silent
          case Some(t) =>
            var ld := TranslatedLimits(t);
            Fetch(StartTime(now, ld.1), ld.0)
  }

  /**
   Lines 259-298 as written. `_translate_text_to_commands` returns what
   `reply_text` returns (lines 360-362), the reply dict that lines 201-203 read
   by key, and line 279 hands it to `find_json` unchanged.
   */
  function Plan(now: real, lastTime: Option<int>, configured: Option<int>, invocation: Invocation,
                translation: LmReply, parse: string -> Option<Translated>): (d: Decision)
    ensures d.Respond? <==> RateLimited(lastTime, now, configured)
    ensures d.Respond? ==> d.reply == Reply(TextReply, RateLimitedText)
    // every free-text request returns silently, whatever the translation says
    ensures d.Silent? <==> !RateLimited(lastTime, now, configured) && invocation.FreeText?
    ensures d.Fetch? && invocation.Bare? ==> d == Fetch(0, 99)
    ensures d.Fetch? && invocation.WithCount? ==> d == Fetch(0, invocation.n)
  {
    Decide(now, lastTime, configured, invocation, HandedReply(translation), parse)
  }

  /** Lines 259-298 with `find_json` applied to the reply's `content`, as line 279 evidently means. */
  function PlanOnContent(now: real, lastTime: Option<int>, configured: Option<int>, invocation: Invocation,
                         translation: LmReply, parse: string -> Option<Translated>): (d: Decision)
    ensures d.Respond? <==> RateLimited(lastTime, now, configured)
    ensures d.Respond? ==> d.reply == Reply(TextReply, RateLimitedText)
    ensures d.Silent? <==>
      !RateLimited(lastTime, now, configured) && invocation.FreeText?
      && parse(FindJson.Find(translation.content)).None?
    ensures d.Fetch? && invocation.Bare? ==> d == Fetch(0, 99)
    ensures d.Fetch? && invocation.WithCount? ==> d == Fetch(0, invocation.n)
    // a translated request fetches with the limits it asks for
    ensures d.Fetch? && invocation.FreeText? ==>
      var t := parse(FindJson.Find(translation.content)).value; var ld := TranslatedLimits(t);
      d == Fetch(StartTime(now, ld.1), ld.0)
    // only an explicit argument can ask for a negative limit
    ensures d.Fetch? && !invocation.WithCount? ==> d.limit >= 0
    // the window, when there is one, ends at the current second
    ensures d.Fetch? ==> d.startTime == 0 || d.startTime < Trunc(now)
  {
    Decide(now, lastTime, configured, invocation, HandedText(translation.content), parse)
  }

  /** The two handlers part on every free-text request whose translation reads: as written it
      returns silently, on the reply's content it fetches records. */
  lemma FreeTextNeverFetches(now: real, lastTime: Option<int>, configured: Option<int>,
                             translation: LmReply, parse: string -> Option<Translated>)
    requires !RateLimited(lastTime, now, configured)
    requires parse(FindJson.Find(translation.content)).Some?
    ensures Plan(now, lastTime, configured, FreeText, translation, parse) == Silent
    ensures PlanOnContent(now, lastTime, configured, FreeText, translation, parse).Fetch?
  {
  }

  /** After a summary recorded at `int(t1)`, a request at `t2` is refused while less than the limit
      minus a second has passed, and accepted once the limit plus a second has passed. */
  lemma RateLimitWindow(t1: real, t2: real, configured: Option<int>)
    ensures t2 - t1 <= RateLimitSeconds(configured) as real - 1.0 ==>
      RateLimited(Some(Trunc(t1)), t2, configured)
    ensures t2 - t1 >= RateLimitSeconds(configured) as real + 1.0 ==>
      !RateLimited(Some(Trunc(t1)), t2, configured)
  {
  }
}
