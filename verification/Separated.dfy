/** Text in which a character separates parts: splitting and joining. */
module Separated {
  import opened Words

  predicate Free(s: string, c: char) { c !in s }

  predicate IsFound(s: string, c: char, r: int) {
    if r == -1 then Free(s, c) else 0 <= r < |s| && s[r] == c && forall k | 0 <= k < r :: s[k] != c
  }

  lemma {:induction false} FoundExists(s: string, c: char)
    ensures exists r: int :: IsFound(s, c, r)
  {
    if s == [] || s[0] == c {
      assert IsFound(s, c, if s == [] then -1 else 0);
    } else {
      FoundExists(s[1..], c);
      var r: int :| IsFound(s[1..], c, r);
      assert r != -1 ==> forall k | 0 < k < r + 1 :: s[k] == s[1..][k - 1];
      assert IsFound(s, c, if r == -1 then -1 else r + 1);
    }
  }

  /** find_char_in_str: the first place of `c`, or -1. */
  ghost function FindChar(s: string, c: char): (r: int)
    ensures -1 <= r < |s| && (r == -1 <==> Free(s, c))
    ensures r >= 0 ==> s[r] == c && Free(s[..r], c)
  {
    FoundExists(s, c);
    var r: int :| IsFound(s, c, r);
    r
  }

  lemma FindCharIs(s: string, c: char, r: nat)
    requires r < |s| && s[r] == c && Free(s[..r], c)
    ensures FindChar(s, c) == r
  {
    forall k | 0 <= k < r ensures s[k] != c {
      assert s[..r][k] == s[k];
    }
  }

  method FindCharInStr(s: string, c: char) returns (r: int)
    ensures r == FindChar(s, c)
  {
    var i := 0;
    while i < |s|
      invariant i <= |s| && Free(s[..i], c)
    {
      if s[i] == c {
        FindCharIs(s, c, i);
        return i;
      }
      assert s[..i + 1] == s[..i] + [s[i]];
      i := i + 1;
    }
    assert s[..|s|] == s;
    return -1;
  }

  /** The parts between the separators; there is always at least one. */
  ghost function Split(s: string, c: char): (r: seq<string>)
    ensures r != []
    decreases |s|
  {
    var p := FindChar(s, c);
    if p == -1 then [s] else [s[..p]] + Split(s[p + 1..], c)
  }

  function Join(parts: seq<string>, c: char): string
    requires parts != []
  {
    if |parts| == 1 then parts[0] else parts[0] + [c] + Join(parts[1..], c)
  }

  lemma SplitOnce(head: string, c: char, rest: string)
    requires Free(head, c)
    ensures FindChar(head + [c] + rest, c) == |head|
    ensures Split(head + [c] + rest, c) == [head] + Split(rest, c)
  {
    var s := head + [c] + rest;
    assert s[..|head|] == head && s[|head| + 1..] == rest;
    FindCharIs(s, c, |head|);
  }

  /** What was joined is split again ... */
  lemma {:induction false} SplitJoin(parts: seq<string>, c: char)
    requires parts != [] && forall k | 0 <= k < |parts| :: Free(parts[k], c)
    ensures Split(Join(parts, c), c) == parts
  {
    if |parts| > 1 {
      SplitJoin(parts[1..], c);
      SplitOnce(parts[0], c, Join(parts[1..], c));
    }
  }

  /** ... and what was split is joined again. */
  lemma {:induction false} JoinSplit(s: string, c: char)
    ensures Join(Split(s, c), c) == s
    ensures forall k | 0 <= k < |Split(s, c)| :: Free(Split(s, c)[k], c)
    decreases |s|
  {
    var p := FindChar(s, c);
    if p != -1 {
      JoinSplit(s[p + 1..], c);
      assert s == s[..p] + [c] + s[p + 1..];
      assert Split(s, c)[1..] == Split(s[p + 1..], c);
    }
  }

  lemma {:induction false} JoinSnoc(parts: seq<string>, last: string, c: char)
    requires parts != []
    ensures Join(parts + [last], c) == Join(parts, c) + [c] + last
  {
    if |parts| > 1 {
      JoinSnoc(parts[1..], last, c);
      assert (parts + [last])[1..] == parts[1..] + [last];
    }
  }
}
