/**
 `find_json`: the search for `\{[\s\S]*\}` written out as a scan. The match
 starts at the first `{` and, the star being greedy, ends at the last `}`
 after it; with no such `}` there is no match and the result is empty.
 */
module FindJson {
  import opened Wrappers

  /** The index of the first `c` in `s`. */
  function FirstIndex(s: string, c: char): (r: Option<nat>)
    ensures r.None? <==> c !in s
    ensures r.Some? ==> r.value < |s| && s[r.value] == c && c !in s[..r.value]
  {
    if |s| == 0 then None
    else if s[0] == c then Some(0)
    else match FirstIndex(s[1..], c)
      case None => None
      case Some(i) => assert s[..i + 1] == [s[0]] + s[1..][..i]; Some(i + 1)
  }

  /** The index of the last `c` in `s`. */
  function LastIndex(s: string, c: char): (r: Option<nat>)
    ensures r.None? <==> c !in s
    ensures r.Some? ==> r.value < |s| && s[r.value] == c && c !in s[r.value + 1..]
  {
    if |s| == 0 then None
    else if s[|s| - 1] == c then Some(|s| - 1)
    else
      assert s == s[..|s| - 1] + [s[|s| - 1]];
      LastIndex(s[..|s| - 1], c)
  }

  /** Some `}` comes after some `{`: the pattern has a match. */
  predicate HasObject(s: string)
  {
    exists i, j :: 0 <= i < j < |s| && s[i] == '{' && s[j] == '}'
  }

  function Find(s: string): (r: string)
    ensures r == "" <==> !HasObject(s)
    ensures r != "" ==>
      && |r| >= 2 && r[0] == '{' && r[|r| - 1] == '}'
      && exists i :: 0 <= i && i + |r| <= |s| && r == s[i..i + |r|]
                     && '{' !in s[..i] && '}' !in s[i + |r|..]
  {
    match FirstIndex(s, '{')
    case None => ""
    case Some(i) =>
      match LastIndex(s, '}')
      case None => ""
      case Some(j) =>
        if i < j then s[i..j + 1]
        else
          assert !HasObject(s) by {
            forall a, b | 0 <= a < b < |s| && s[a] == '{'
              ensures s[b] != '}'
            {
              assert s[j + 1..][b - j - 1] == s[b];
            }
          }
          ""
  }

  /** Extracting again from an extracted object changes nothing. */
  lemma FindIdempotent(s: string)
    ensures Find(Find(s)) == Find(s)
  {
    var r := Find(s);
    if r != "" {
      assert FirstIndex(r, '{') == Some(0);
      assert LastIndex(r, '}') == Some(|r| - 1);
      assert r[0..|r|] == r;
    }
  }
}
