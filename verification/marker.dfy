/**
 The marker strip applied to fetched records before batching: the content is
 split on `\n- - - - - - - - -.*?\n` and, when that yields more than one
 piece, the second piece replaces the content. Written out as a scan.
 */
module Marker {
  import opened Wrappers
  import opened Seqs
  import opened Records

  /** The literal start of a separator: a newline and nine dashes separated by spaces. */
  const Header: string := "\n- - - - - - - - -"

  /** `s[p..e]` is a separator: the header, then non-newline characters, then a newline
      (the lazy `.*?` stops at the first newline, and `.` never matches one). */
  predicate IsMatch(s: string, p: int, e: int)
  {
    && OccursAt(s, Header, p)
    && p + |Header| < e <= |s|
    && s[e - 1] == '\n'
    && '\n' !in s[p + |Header|..e - 1]
  }

  /** No separator starts at or after `from`. */
  ghost predicate NoMatchFrom(s: string, from: int)
  {
    forall p, e :: from <= p && IsMatch(s, p, e) ==> false
  }

  /** Some separator starts at `p`. */
  ghost predicate MatchStartsAt(s: string, p: int)
  {
    exists e :: IsMatch(s, p, e)
  }

  /** Where a separator lies: `s[start..end]`. */
  datatype Sep = Sep(start: nat, end: nat)

  /** The first newline at or after `k`. */
  function NextNewline(s: string, k: nat): (r: Option<nat>)
    requires k <= |s|
    ensures r.Some? ==> k <= r.value < |s| && s[r.value] == '\n' && '\n' !in s[k..r.value]
    ensures r.None? ==> '\n' !in s[k..]
    decreases |s| - k
  {
    if k == |s| then None
    else if s[k] == '\n' then Some(k)
    else match NextNewline(s, k + 1)
      case None => None
      case Some(q) => assert s[k..q] == [s[k]] + s[k + 1..q]; Some(q)
  }

  /** The leftmost separator starting at or after `from`, as `(start, end)`. */
  function FindMatch(s: string, from: nat): (r: Option<Sep>)
    requires from <= |s|
    ensures r.Some? ==> from <= r.value.start && IsMatch(s, r.value.start, r.value.end)
    ensures r.Some? ==> forall p, e :: from <= p < r.value.start && IsMatch(s, p, e) ==> false
    ensures r.None? ==> NoMatchFrom(s, from)
    decreases |s| - from
  {
    if from + |Header| >= |s| then None
    else if OccursAt(s, Header, from) then
      match NextNewline(s, from + |Header|)
      case Some(q) => Some(Sep(from, q + 1))
      case None =>
        assert NoMatchFrom(s, from);
        None
    else
      FindMatch(s, from + 1)
  }

  /** The content kept from one record: `re.split(...)[1]` when the split has more than one piece. */
  function Strip(content: string): (r: string)
    // unchanged exactly when there is no separator; otherwise a strictly shorter tail piece
    ensures r == content <==> FindMatch(content, 0).None?
    ensures FindMatch(content, 0).Some? ==> |r| < |content|
  {
    match FindMatch(content, 0)
    case None => content
    case Some(first) =>
      match FindMatch(content, first.end)
      case None => content[first.end..]
      case Some(next) => content[first.end..next.start]
  }

  /** A separator inside a piece of `s` is a separator of `s` at the shifted place. */
  lemma MatchInSlice(s: string, a: nat, b: nat, p: int, e: int)
    requires a <= b <= |s| && IsMatch(s[a..b], p, e)
    ensures IsMatch(s, a + p, a + e)
  {
    var t := s[a..b];
    assert forall k :: p <= k < e ==> t[k] == s[a + k];
    assert t[p..p + |Header|] == s[a + p..a + p + |Header|];
    assert t[p + |Header|..e - 1] == s[a + p + |Header|..a + e - 1];
  }

  /** No separator starts before `p`. */
  ghost predicate NoMatchBefore(s: string, p: int)
  {
    forall q, e :: 0 <= q < p && IsMatch(s, q, e) ==> false
  }

  /** The kept text holds no separator of its own. */
  lemma StripHasNoMatch(content: string)
    ensures NoMatchFrom(Strip(content), 0)
  {
    var r := Strip(content);
    match FindMatch(content, 0)
    case None =>
    case Some(first) =>
      var e := first.end;
      forall q, f | 0 <= q && IsMatch(r, q, f)
        ensures false
      {
        match FindMatch(content, e)
        case None =>
          assert r == content[e..|content|];
          MatchInSlice(content, e, |content|, q, f);
        case Some(next) =>
          MatchInSlice(content, e, next.start, q, f);
      }
  }

  /** After the first separator `first`, the kept text runs to the next separator or the end. */
  lemma StripAfterFirst(content: string, first: Sep)
    requires FindMatch(content, 0) == Some(first)
    ensures first.end + |Strip(content)| <= |content|
    ensures Strip(content) == content[first.end..first.end + |Strip(content)|]
    ensures first.end + |Strip(content)| == |content| || MatchStartsAt(content, first.end + |Strip(content)|)
  {
    var e := first.end;
    match FindMatch(content, e)
    case None =>
      assert Strip(content) == content[e..];
    case Some(next) =>
      assert Strip(content) == content[e..next.start];
      assert IsMatch(content, next.start, next.end);
  }

  /** No separator starts inside the kept text: it stops at the first one after `first`. */
  lemma StripKeptNoMatch(content: string, first: Sep)
    requires FindMatch(content, 0) == Some(first)
    ensures forall q, f :: first.end <= q < first.end + |Strip(content)| ==> !IsMatch(content, q, f)
  {
    var e := first.end;
    match FindMatch(content, e)
    case None =>
      assert NoMatchFrom(content, e);
    case Some(next) =>
      assert |Strip(content)| == next.start - e;
  }

  /** The first separator witnesses where the kept text lies. */
  lemma StripFirstWitness(content: string, first: Sep)
    requires FindMatch(content, 0) == Some(first)
    ensures exists p, e :: && IsMatch(content, p, e) && NoMatchBefore(content, p)
                           && e + |Strip(content)| <= |content|
                           && Strip(content) == content[e..e + |Strip(content)|]
                           && (e + |Strip(content)| == |content|
                               || MatchStartsAt(content, e + |Strip(content)|))
                           && (forall q, f :: e <= q < e + |Strip(content)| ==> !IsMatch(content, q, f))
  {
    StripAfterFirst(content, first);
    StripKeptNoMatch(content, first);
    assert IsMatch(content, first.start, first.end) && NoMatchBefore(content, first.start);
  }

  /**
   Content with no separator is kept as is; otherwise the result is the text
   after the first separator up to the next separator or the end, and it holds
   no separator itself.
   */
  lemma StripSpec(content: string)
    ensures NoMatchFrom(content, 0) <==> Strip(content) == content
    ensures NoMatchFrom(Strip(content), 0)
    ensures !NoMatchFrom(content, 0) ==>
      exists p, e :: && IsMatch(content, p, e) && NoMatchBefore(content, p)
                     && e + |Strip(content)| <= |content|
                     && Strip(content) == content[e..e + |Strip(content)|]
                     && (e + |Strip(content)| == |content|
                         || MatchStartsAt(content, e + |Strip(content)|))
                     // and it stops at the next separator: none starts inside the kept text
                     && (forall q, f :: e <= q < e + |Strip(content)| ==> !IsMatch(content, q, f))
  {
    StripHasNoMatch(content);
    match FindMatch(content, 0)
    case None =>
    case Some(first) =>
      assert !NoMatchFrom(content, 0) by {
        assert IsMatch(content, first.start, first.end);
      }
      StripFirstWitness(content, first);
  }

  /** Stripping an already stripped content changes nothing. */
  lemma StripIdempotent(content: string)
    ensures Strip(Strip(content)) == Strip(content)
  {
    StripSpec(content);
    StripSpec(Strip(content));
  }

  /** Lines 301-307 on one record: only the content changes. */
  function StripRecord(r: Record): (r': Record)
    ensures r'.content == Strip(r.content)
    ensures r' == r.(content := r'.content)
  {
    r.(content := Strip(r.content))
  }

  /** Lines 301-307 on the fetched list: same length, same order, each record stripped. */
  function StripAll(rs: seq<Record>): (rs': seq<Record>)
    ensures |rs'| == |rs|
    ensures forall i :: 0 <= i < |rs| ==> rs'[i] == StripRecord(rs[i])
    ensures SortedNewestFirst(rs) ==> SortedNewestFirst(rs')
  {
    seq(|rs|, i requires 0 <= i < |rs| => StripRecord(rs[i]))
  }
}
